/** `InMemoryPancakeRepository`: for each order id, the ordered list of its pancake recipes. */
module PancakeRepository {
  import opened Orders
  import opened Recipes

  /** The repository's map. A key is present only while its list is non-empty. */
  type Store = map<OrderId, seq<PancakeRecipe>>

  /** `getOrDefault(orderId, emptyList())`. */
  function ItemsOf(store: Store, id: OrderId): seq<PancakeRecipe>
  {
    if id in store then store[id] else []
  }

  /** The descriptions of a list of recipes, position by position. */
  function Descriptions(recipes: seq<PancakeRecipe>): (r: seq<string>)
    ensures |r| == |recipes|
    ensures forall i :: 0 <= i < |recipes| ==> r[i] == Description(recipes[i])
  {
    if |recipes| == 0 then [] else [Description(recipes[0])] + Descriptions(recipes[1..])
  }

  /** The view of two lists one after the other is the two views one after the other. */
  lemma DescriptionsAppend(a: seq<PancakeRecipe>, b: seq<PancakeRecipe>)
    ensures Descriptions(a + b) == Descriptions(a) + Descriptions(b)
  {
    var whole, parts := Descriptions(a + b), Descriptions(a) + Descriptions(b);
    forall i | 0 <= i < |whole|
      ensures whole[i] == parts[i]
    {
      if i < |a| {
        assert (a + b)[i] == a[i];
      } else {
        assert (a + b)[i] == b[i - |a|];
      }
    }
  }

  // The removal walk is stated for any list and any test of its items; the repository
  // instantiates the test with `HasDescription`.

  /** The test `removePancakes` applies to each recipe: its description equals the
      argument. Since a description belongs to one recipe only, the test singles out the
      pancakes of exactly that recipe. */
  function HasDescription(description: string): (test: PancakeRecipe -> bool)
    ensures forall p :: test(p) <==> Description(p) == description
    ensures forall p, q :: Description(q) == description ==> (test(p) <==> p == q)
  {
    assert forall p, q :: Description(q) == description && Description(p) == description ==> p == q by {
      forall p, q | Description(q) == description && Description(p) == description
        ensures p == q
      {
        DescriptionIdentifiesRecipe(p, q);
      }
    }
    (p: PancakeRecipe) => Description(p) == description
  }

  /** How many items pass the test. */
  function CountMatching<T>(items: seq<T>, isMatch: T -> bool): (n: nat)
    ensures n <= |items|
  {
    if |items| == 0 then 0
    else (if isMatch(items[0]) then 1 else 0) + CountMatching(items[1..], isMatch)
  }

  /** The items that fail the test, in their order. */
  function Others<T>(items: seq<T>, isMatch: T -> bool): seq<T>
  {
    if |items| == 0 then []
    else (if isMatch(items[0]) then [] else [items[0]]) + Others(items[1..], isMatch)
  }

  /** How many a removal of up to `count` can take: none for `count <= 0`, otherwise
      `count` or the number of matches, whichever is smaller. */
  function RemovedCount<T>(items: seq<T>, isMatch: T -> bool, count: int): nat
  {
    if count <= 0 then 0
    else if count < CountMatching(items, isMatch) then count
    else CountMatching(items, isMatch)
  }

  /** The list left after removing, front to back, up to `count` items that pass the test. */
  function RemoveFirst<T>(items: seq<T>, isMatch: T -> bool, count: int): (r: seq<T>)
    ensures |r| <= |items|
  {
    if |items| == 0 || count <= 0 then items
    else if isMatch(items[0]) then RemoveFirst(items[1..], isMatch, count - 1)
    else [items[0]] + RemoveFirst(items[1..], isMatch, count)
  }

  /** Exactly `RemovedCount` items go. */
  lemma {:induction false} RemoveFirstLength<T>(items: seq<T>, isMatch: T -> bool, count: int)
    ensures |items| - |RemoveFirst(items, isMatch, count)| == RemovedCount(items, isMatch, count)
  {
    if |items| > 0 && count > 0 {
      var c := if isMatch(items[0]) then count - 1 else count;
      RemoveFirstLength(items[1..], isMatch, c);
      RemovedCountStep(items, isMatch, count);
    }
  }

  /** The items that fail the test keep their relative order. */
  lemma {:induction false} RemoveFirstKeepsOthers<T>(items: seq<T>, isMatch: T -> bool, count: int)
    ensures Others(RemoveFirst(items, isMatch, count), isMatch) == Others(items, isMatch)
  {
    if |items| > 0 && count > 0 {
      var rest := items[1..];
      if isMatch(items[0]) {
        RemoveFirstKeepsOthers(rest, isMatch, count - 1);
      } else {
        RemoveFirstKeepsOthers(rest, isMatch, count);
        assert ([items[0]] + RemoveFirst(rest, isMatch, count))[1..] == RemoveFirst(rest, isMatch, count);
      }
    }
  }

  /** Exactly `RemovedCount` matching items go: the rest of the matches stay. */
  lemma {:induction false} RemoveFirstLeavesMatches<T>(items: seq<T>, isMatch: T -> bool, count: int)
    ensures CountMatching(RemoveFirst(items, isMatch, count), isMatch)
         == CountMatching(items, isMatch) - RemovedCount(items, isMatch, count)
  {
    if |items| > 0 && count > 0 {
      var rest := items[1..];
      if isMatch(items[0]) {
        RemoveFirstLeavesMatches(rest, isMatch, count - 1);
      } else {
        RemoveFirstLeavesMatches(rest, isMatch, count);
        assert ([items[0]] + RemoveFirst(rest, isMatch, count))[1..] == RemoveFirst(rest, isMatch, count);
      }
    }
  }

  /** The removed matches are the earliest ones: the list splits into a front holding
      exactly `RemovedCount` matches and a back, and the result is the front without its
      matches followed by the untouched back. */
  lemma {:induction false} RemoveFirstTakesEarliest<T>(items: seq<T>, isMatch: T -> bool, count: int)
    ensures exists front, back :: EarliestSplit(items, isMatch, count, front, back)
  {
    if |items| == 0 || count <= 0 {
      var nothing: seq<T> := [];
      assert items == nothing + items && Others(nothing, isMatch) + items == items;
      assert EarliestSplit(items, isMatch, count, nothing, items);
    } else {
      var c := if isMatch(items[0]) then count - 1 else count;
      RemoveFirstTakesEarliest(items[1..], isMatch, c);
      var front, back :| EarliestSplit(items[1..], isMatch, c, front, back);
      EarliestSplitStep(items, isMatch, count, front, back);
    }
  }

  /** `front` and `back` split the list as `RemoveFirstTakesEarliest` describes. */
  ghost predicate EarliestSplit<T>(items: seq<T>, isMatch: T -> bool, count: int, front: seq<T>, back: seq<T>)
  {
    && items == front + back
    && CountMatching(front, isMatch) == RemovedCount(items, isMatch, count)
    && RemoveFirst(items, isMatch, count) == Others(front, isMatch) + back
  }

  /** A split of the rest of the list extends to the whole list by its first item. */
  lemma EarliestSplitStep<T>(items: seq<T>, isMatch: T -> bool, count: int, front: seq<T>, back: seq<T>)
    requires |items| > 0 && count > 0
    requires EarliestSplit(items[1..], isMatch, if isMatch(items[0]) then count - 1 else count, front, back)
    ensures EarliestSplit(items, isMatch, count, [items[0]] + front, back)
  {
    var x, rest := items[0], items[1..];
    var longer := [x] + front;
    assert longer[0] == x && longer[1..] == front;
    assert items == longer + back by {
      assert items == [x] + rest && rest == front + back;
    }
    RemovedCountStep(items, isMatch, count);
    if isMatch(x) {
      assert CountMatching(longer, isMatch) == 1 + CountMatching(front, isMatch);
      assert Others(longer, isMatch) == Others(front, isMatch);
      assert RemoveFirst(items, isMatch, count) == RemoveFirst(rest, isMatch, count - 1);
    } else {
      assert CountMatching(longer, isMatch) == CountMatching(front, isMatch);
      assert Others(longer, isMatch) == [x] + Others(front, isMatch);
      assert RemoveFirst(items, isMatch, count) == [x] + RemoveFirst(rest, isMatch, count);
      assert [x] + (Others(front, isMatch) + back) == ([x] + Others(front, isMatch)) + back;
    }
  }

  /** Removing from a concatenation: the front gives up what it can, and the back
      gives up the rest of the budget. */
  lemma {:induction false} RemoveFirstAppend<T>(front: seq<T>, back: seq<T>, isMatch: T -> bool, count: int)
    ensures RemoveFirst(front + back, isMatch, count)
         == RemoveFirst(front, isMatch, count)
          + RemoveFirst(back, isMatch, count - RemovedCount(front, isMatch, count))
  {
    if |front| == 0 {
      assert front + back == back;
    } else if count > 0 {
      var x, rest := front[0], front[1..];
      var c := if isMatch(x) then count - 1 else count;
      var head := if isMatch(x) then [] else [x];
      assert (front + back)[0] == x && (front + back)[1..] == rest + back;
      assert RemoveFirst(front + back, isMatch, count) == head + RemoveFirst(rest + back, isMatch, c);
      assert RemoveFirst(front, isMatch, count) == head + RemoveFirst(rest, isMatch, c);
      RemovedCountStep(front, isMatch, count);
      RemoveFirstAppend(rest, back, isMatch, c);
      var left := count - RemovedCount(front, isMatch, count);
      assert head + (RemoveFirst(rest, isMatch, c) + RemoveFirst(back, isMatch, left))
          == (head + RemoveFirst(rest, isMatch, c)) + RemoveFirst(back, isMatch, left);
    }
  }

  /** The first item counts as removed when it matches, and the rest of the list is
      treated with the budget that is left. */
  lemma RemovedCountStep<T>(items: seq<T>, isMatch: T -> bool, count: int)
    requires |items| > 0 && count > 0
    ensures var c := if isMatch(items[0]) then count - 1 else count;
      RemovedCount(items, isMatch, count) == (count - c) + RemovedCount(items[1..], isMatch, c)
  {
  }

  /** A list with no match is left as it is. */
  lemma {:induction false} RemoveFirstNoMatch<T>(items: seq<T>, isMatch: T -> bool, count: int)
    requires forall i :: 0 <= i < |items| ==> !isMatch(items[i])
    ensures RemoveFirst(items, isMatch, count) == items
  {
    if |items| > 0 && count > 0 {
      RemoveFirstNoMatch(items[1..], isMatch, count);
      assert items == [items[0]] + items[1..];
    }
  }

  /** From a list whose items all match, the first `count` go. */
  lemma {:induction false} RemoveFirstAllMatch<T>(items: seq<T>, isMatch: T -> bool, count: int)
    requires forall i :: 0 <= i < |items| ==> isMatch(items[i])
    requires 0 <= count <= |items|
    ensures RemoveFirst(items, isMatch, count) == items[count..]
  {
    if count > 0 {
      RemoveFirstAllMatch(items[1..], isMatch, count - 1);
      assert items[1..][count - 1..] == items[count..];
    }
  }

  /** A list made of a part with no match, a run of matches and any tail: a removal
      of at most the run's length takes the first `count` of the run and nothing else. */
  lemma RemoveFirstFromRun<T>(front: seq<T>, run: seq<T>, back: seq<T>, isMatch: T -> bool, count: int)
    requires forall i :: 0 <= i < |front| ==> !isMatch(front[i])
    requires forall i :: 0 <= i < |run| ==> isMatch(run[i])
    requires 0 <= count <= |run|
    ensures RemoveFirst(front + run + back, isMatch, count) == front + run[count..] + back
  {
    assert front + run + back == front + (run + back);
    RemoveFirstAppend(front, run + back, isMatch, count);
    RemoveFirstNoMatch(front, isMatch, count);
    RemoveFirstLength(front, isMatch, count);
    RemoveFirstAppend(run, back, isMatch, count);
    RemoveFirstAllMatch(run, isMatch, count);
    RemoveFirstLength(run, isMatch, count);
    assert front + (run[count..] + back) == front + run[count..] + back;
  }

  /** The loop invariant of `RemoveWalk`: the part before the cursor is final, and
      removing from the part after it with the budget left completes the removal. */
  ghost predicate WalkInvariant<T>(left: seq<T>, cursor: int, isMatch: T -> bool, budget: int, done: seq<T>)
  {
    0 <= cursor <= |left| && left[..cursor] + RemoveFirst(left[cursor..], isMatch, budget) == done
  }

  /** Before the walk nothing is final and the whole budget is left. */
  lemma WalkStart<T>(items: seq<T>, isMatch: T -> bool, count: int)
    ensures WalkInvariant(items, 0, isMatch, count, RemoveFirst(items, isMatch, count))
  {
    assert items[..0] == [] && items[0..] == items;
  }

  /** `iter.remove()` on a match: the item goes, the cursor stays, the budget shrinks. */
  lemma WalkRemoveStep<T>(left: seq<T>, cursor: int, isMatch: T -> bool, budget: int, done: seq<T>)
    requires WalkInvariant(left, cursor, isMatch, budget, done)
    requires cursor < |left| && budget > 0 && isMatch(left[cursor])
    ensures WalkInvariant(left[..cursor] + left[cursor + 1..], cursor, isMatch, budget - 1, done)
  {
    var after := left[..cursor] + left[cursor + 1..];
    assert left[cursor..][0] == left[cursor] && left[cursor..][1..] == left[cursor + 1..];
    assert after[..cursor] == left[..cursor] && after[cursor..] == left[cursor + 1..];
  }

  /** A non-matching item is passed over: the cursor moves on past it. */
  lemma WalkSkipStep<T>(left: seq<T>, cursor: int, isMatch: T -> bool, budget: int, done: seq<T>)
    requires WalkInvariant(left, cursor, isMatch, budget, done)
    requires cursor < |left| && budget > 0 && !isMatch(left[cursor])
    ensures WalkInvariant(left, cursor + 1, isMatch, budget, done)
  {
    var item := left[cursor];
    assert left[cursor..][0] == item && left[cursor..][1..] == left[cursor + 1..];
    assert left[..cursor + 1] == left[..cursor] + [item];
    var tail := RemoveFirst(left[cursor + 1..], isMatch, budget);
    assert (left[..cursor] + [item]) + tail == left[..cursor] + ([item] + tail);
  }

  /** Once the list is exhausted or the budget spent, the list is the final result. */
  lemma WalkEnd<T>(left: seq<T>, cursor: int, isMatch: T -> bool, budget: int, done: seq<T>)
    requires WalkInvariant(left, cursor, isMatch, budget, done)
    requires cursor == |left| || budget <= 0
    ensures left == done
  {
    assert left == left[..cursor] + left[cursor..];
  }

  /** The iterator loop of `removePancakes` over one list: `iter.remove()` takes out the
      current item, otherwise the iterator moves on; the walk stops at the end of the list
      or once `count` items are gone. */
  method RemoveWalk<T>(items: seq<T>, isMatch: T -> bool, count: int)
    returns (left: seq<T>, removed: int)
    ensures left == RemoveFirst(items, isMatch, count)
    ensures removed == RemovedCount(items, isMatch, count)
  {
    ghost var done := RemoveFirst(items, isMatch, count);
    left := items;
    var cursor := 0;
    removed := 0;
    WalkStart(items, isMatch, count);
    while cursor < |left| && removed < count
      invariant WalkInvariant(left, cursor, isMatch, count - removed, done)
      invariant removed == |items| - |left|
      decreases |left| - cursor
    {
      if isMatch(left[cursor]) {
        WalkRemoveStep(left, cursor, isMatch, count - removed, done);
        left := left[..cursor] + left[cursor + 1..];
        removed := removed + 1;
      } else {
        WalkSkipStep(left, cursor, isMatch, count - removed, done);
        cursor := cursor + 1;
      }
    }
    WalkEnd(left, cursor, isMatch, count - removed, done);
    RemoveFirstLength(items, isMatch, count);
  }

  /** `count` copies of one recipe. */
  function Repeat(recipe: PancakeRecipe, count: nat): (r: seq<PancakeRecipe>)
    ensures |r| == count && forall i :: 0 <= i < count ==> r[i] == recipe
  {
    seq(count, _ => recipe)
  }

  /** The store after `count` successive `addPancake(id, recipe)` calls (none if
      `count <= 0`): copies at the end of that id's list, other ids untouched. */
  function AppendCopies(store: Store, id: OrderId, recipe: PancakeRecipe, count: int): (r: Store)
    ensures count <= 0 ==> r == store
    ensures count > 0 ==> id in r && r.Keys == store.Keys + {id}
    ensures forall other :: other != id ==> ItemsOf(r, other) == ItemsOf(store, other)
  {
    if count <= 0 then store else store[id := ItemsOf(store, id) + Repeat(recipe, count)]
  }

  /** Adding in two batches is adding once with the total: no copy is lost or doubled. */
  lemma AppendCopiesCompose(store: Store, id: OrderId, recipe: PancakeRecipe, first: nat, second: nat)
    ensures AppendCopies(AppendCopies(store, id, recipe, first), id, recipe, second)
         == AppendCopies(store, id, recipe, first + second)
  {
    if first > 0 && second > 0 {
      var items := ItemsOf(store, id);
      assert ItemsOf(AppendCopies(store, id, recipe, first), id) == items + Repeat(recipe, first);
      assert Repeat(recipe, first) + Repeat(recipe, second) == Repeat(recipe, first + second);
      assert (items + Repeat(recipe, first)) + Repeat(recipe, second) == items + Repeat(recipe, first + second);
    }
  }

  /** The view after the copies: the old descriptions, then the recipe's description `count` times. */
  lemma AppendCopiesView(store: Store, id: OrderId, recipe: PancakeRecipe, count: nat)
    ensures Descriptions(ItemsOf(AppendCopies(store, id, recipe, count), id))
         == Descriptions(ItemsOf(store, id)) + seq(count, _ => Description(recipe))
  {
    DescriptionsAppend(ItemsOf(store, id), Repeat(recipe, count));
  }

  /** No key holds an empty list. */
  predicate NoEmptyLists(store: Store)
  {
    forall id :: id in store ==> |store[id]| > 0
  }

  /** The store after `removePancakes(id, description, count)`: the id's list loses its
      first matching recipes, and its key goes once the list is empty; an id without a
      list, or with an empty one, is left alone. */
  function RemoveFromStore(store: Store, id: OrderId, description: string, count: int): (r: Store)
    ensures id !in store ==> r == store
    ensures ItemsOf(r, id) == RemoveFirst(ItemsOf(store, id), HasDescription(description), count)
    ensures forall other :: other != id ==> (other in r <==> other in store)
    ensures forall other :: other != id ==> ItemsOf(r, other) == ItemsOf(store, other)
    ensures NoEmptyLists(store) ==> NoEmptyLists(r)
    ensures NoEmptyLists(store) ==> (id in r <==> |ItemsOf(r, id)| > 0)
  {
    if id !in store || |store[id]| == 0 then
      assert |ItemsOf(store, id)| == 0;
      store
    else
      var left := RemoveFirst(store[id], HasDescription(description), count);
      if |left| == 0 then store - {id} else store[id := left]
  }

  /** `removePancakes` on a list made of a part with no match, a run of matches and
      any tail, taking at most the run's length: the first `count` of the run go. */
  lemma RemoveFromStoreRun(store: Store, id: OrderId, front: seq<PancakeRecipe>, run: seq<PancakeRecipe>,
                           back: seq<PancakeRecipe>, description: string, count: int)
    requires ItemsOf(store, id) == front + run + back
    requires forall i :: 0 <= i < |front| ==> Description(front[i]) != description
    requires forall i :: 0 <= i < |run| ==> Description(run[i]) == description
    requires 0 <= count <= |run|
    ensures ItemsOf(RemoveFromStore(store, id, description, count), id) == front + run[count..] + back
  {
    RemoveFirstFromRun(front, run, back, HasDescription(description), count);
  }

  class InMemoryPancakeRepository {
    var orderPancakes: Store

    /** No empty list is ever left behind under a key. */
    ghost predicate Valid()
      reads this
    {
      NoEmptyLists(orderPancakes)
    }

    constructor ()
      ensures Valid() && orderPancakes == map[]
    {
      orderPancakes := map[];
    }

    /** `viewOrderPancakes`: the descriptions of the id's recipes in insertion order,
        empty for an id without an entry. */
    function ViewOrderPancakes(id: OrderId): (r: seq<string>)
      reads this
      ensures |r| == |ItemsOf(orderPancakes, id)|
      ensures forall i :: 0 <= i < |r| ==> r[i] == Description(ItemsOf(orderPancakes, id)[i])
      ensures id !in orderPancakes ==> r == []
    {
      Descriptions(ItemsOf(orderPancakes, id))
    }

    /** `addPancake`: creates the list on first use, appends, returns the new size. */
    method AddPancake(id: OrderId, recipe: PancakeRecipe) returns (size: int)
      requires Valid()
      modifies this
      ensures Valid()
      ensures orderPancakes == old(orderPancakes)[id := ItemsOf(old(orderPancakes), id) + [recipe]]
      ensures orderPancakes == AppendCopies(old(orderPancakes), id, recipe, 1)
      ensures size == |ItemsOf(old(orderPancakes), id)| + 1
    {
      assert Repeat(recipe, 1) == [recipe];
      if id !in orderPancakes {
        orderPancakes := orderPancakes[id := []];
      }
      orderPancakes := orderPancakes[id := orderPancakes[id] + [recipe]];
      size := |orderPancakes[id]|;
    }

    /** `remove`: drops the id's whole list. */
    method Remove(id: OrderId)
      requires Valid()
      modifies this
      ensures Valid()
      ensures orderPancakes == old(orderPancakes) - {id}
      ensures ViewOrderPancakes(id) == [] && GetPancakesCount(id) == 0
    {
      orderPancakes := orderPancakes - {id};
    }

    /** `removePancakes`: walks the id's list front to back with a cursor, removing
        recipes with the description until `count` are gone; drops the key if the list
        empties. Absent or empty lists give 0 and no change. */
    method RemovePancakes(id: OrderId, description: string, count: int) returns (removed: int)
      requires Valid()
      modifies this
      ensures Valid()
      ensures removed == RemovedCount(ItemsOf(old(orderPancakes), id), HasDescription(description), count)
      ensures orderPancakes == RemoveFromStore(old(orderPancakes), id, description, count)
    {
      if id !in orderPancakes || |orderPancakes[id]| == 0 {
        return 0;
      }
      var list;
      list, removed := RemoveWalk(orderPancakes[id], HasDescription(description), count);
      if |list| == 0 {
        orderPancakes := orderPancakes - {id};
      } else {
        orderPancakes := orderPancakes[id := list];
      }
    }

    /** `getPancakesCount`: always the length of the view. */
    function GetPancakesCount(id: OrderId): (n: nat)
      reads this
      ensures n == |ViewOrderPancakes(id)|
      ensures n == 0 <==> id !in orderPancakes || |orderPancakes[id]| == 0
    {
      |ItemsOf(orderPancakes, id)|
    }
  }
}
