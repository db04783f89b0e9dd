/** Packing items into batches under a token budget (`pack_adaptive` of
    `scripts/prefix/brassclaw-prefix-upgrade.py`). */
module Packing {

  function Concat<T>(parts: seq<seq<T>>): seq<T> {
    if parts == [] then [] else Concat(parts[..|parts| - 1]) + parts[|parts| - 1]
  }

  lemma ConcatOne<T>(parts: seq<seq<T>>, x: seq<T>)
    ensures Concat(parts + [x]) == Concat(parts) + x
  {
    assert (parts + [x])[..|parts|] == parts;
  }

  /** `a + b`, without an empty second part. */
  function Joined<T>(a: seq<T>, b: seq<T>): seq<T> {
    if b == [] then a else a + b
  }

  // --- Batches -----------------------------------------------------------------------------------------

  /** The prompt size of a list of items under the tokenizer and the chat template: any function. */
  type Cost<!T> = seq<T> -> int

  datatype Limits = Limits(budget: int, maxItems: int, targetItems: int, threshold: int)

  /** `max(1, min(start, max_items))`; `threshold` is four fifths of the budget. */
  function LimitsOf(budget: int, start: int, maxItems: int, threshold: int): Limits {
    var least := if start < maxItems then start else maxItems;
    Limits(budget, maxItems, if least < 1 then 1 else least, threshold)
  }

  predicate TooBig<T>(cost: Cost<T>, l: Limits, batch: seq<T>) {
    cost(batch) > l.budget || |batch| > l.maxItems
  }

  /** Two or more items are together only within both limits, and not past the point of being rich. */
  predicate Fits<T>(cost: Cost<T>, l: Limits, batch: seq<T>) {
    batch != [] && (|batch| > 1 ==> !TooBig(cost, l, batch)) && Prompt(cost, l, batch)
  }

  /** Full enough to be closed although more would fit. */
  predicate Rich<T>(cost: Cost<T>, l: Limits, batch: seq<T>) {
    |batch| >= l.targetItems && cost(batch) >= l.threshold
  }

  /** A batch ends only for a reason: the next item would not fit, or it is already rich. */
  predicate EndsFor<T>(cost: Cost<T>, l: Limits, batch: seq<T>, next: T) {
    TooBig(cost, l, batch + [next]) || Rich(cost, l, batch)
  }

  predicate AllFit<T>(cost: Cost<T>, l: Limits, batches: seq<seq<T>>) {
    forall k | 0 <= k < |batches| :: Fits(cost, l, batches[k])
  }

  /** No batch was closed early. */
  predicate Follows<T>(cost: Cost<T>, l: Limits, batch: seq<T>, next: seq<T>) {
    next != [] && EndsFor(cost, l, batch, next[0])
  }

  predicate Greedy<T>(cost: Cost<T>, l: Limits, batches: seq<seq<T>>) {
    && (forall k | 0 < k < |batches| :: Follows(cost, l, batches[k - 1], batches[k]))
    && (batches != [] ==> StartsRight(cost, l, [], batches[0]))
    && forall k | 0 < k < |batches| :: StartsRight(cost, l, batches[k - 1], batches[k])
  }

  /** A first item that is rich alone is joined by others only where it came over from a batch it did
      not fit into. */
  predicate StartsRight<T>(cost: Cost<T>, l: Limits, before: seq<T>, batch: seq<T>) {
    |batch| > 1 && Rich(cost, l, batch[..1]) ==> Spilled(cost, l, before, batch[0])
  }

  predicate Spilled<T>(cost: Cost<T>, l: Limits, before: seq<T>, item: T) {
    before != [] && TooBig(cost, l, before + [item])
  }

  /** No batch of two or more goes on once it is rich. */
  predicate Prompt<T>(cost: Cost<T>, l: Limits, batch: seq<T>) {
    forall n | 1 < n < |batch| :: !Rich(cost, l, batch[..n])
  }

  /** `pack_adaptive`: the batches are the items in order, each within both limits, none closed early
      and none kept open late. */
  method PackAdaptive<T>(items: seq<T>, cost: Cost<T>, budget: int, start: int, maxItems: int, threshold: int) returns (batches: seq<seq<T>>)
    ensures Concat(batches) == items
    ensures AllFit(cost, LimitsOf(budget, start, maxItems, threshold), batches)
    ensures Greedy(cost, LimitsOf(budget, start, maxItems, threshold), batches)
  {
    var l := LimitsOf(budget, start, maxItems, threshold);
    batches := [];
    var current: seq<T> := [];
    for i := 0 to |items|
      invariant Joined(Concat(batches), current) == items[..i]
      invariant Packed(cost, l, batches, current)
    {
      assert items[..i + 1] == items[..i] + [items[i]];
      batches, current := Place(cost, l, batches, current, items[i]);
    }
    assert items[..|items|] == items;
    if current != [] {
      ConcatOne(batches, current);
      CloseLast(cost, l, batches, current);
      batches := batches + [current];
    }
  }

  /** One pass of the packing loop. */
  method Place<T>(cost: Cost<T>, l: Limits, batches: seq<seq<T>>, current: seq<T>, item: T) returns (batches': seq<seq<T>>, current': seq<T>)
    requires Packed(cost, l, batches, current)
    ensures Joined(Concat(batches'), current') == Joined(Concat(batches), current) + [item]
    ensures Packed(cost, l, batches', current')
  {
    var candidate := current + [item];
    if current != [] && TooBig(cost, l, candidate) {
      ConcatOne(batches, current);
      CloseFor(cost, l, batches, current, item);
      return batches + [current], [item];
    }
    batches', current' := batches, candidate;
    JoinedMore(Concat(batches), current, item);
    Extend(cost, l, batches, current, item);
    if |current'| >= l.targetItems && cost(current') >= l.threshold {
      ConcatOne(batches, current');
      CloseRich(cost, l, batches, current');
      batches', current' := batches + [current'], [];
    }
  }

  lemma JoinedMore<T>(a: seq<T>, b: seq<T>, x: T)
    ensures Joined(a, b + [x]) == Joined(a, b) + [x]
  {
  }

  /** What the loop keeps: closed batches are right, and the last of them ended for the open one. */
  ghost predicate Packed<T>(cost: Cost<T>, l: Limits, batches: seq<seq<T>>, current: seq<T>) {
    && Open(cost, l, batches, current)
    && (|current| == 1 && Rich(cost, l, current) ==> Spilled(cost, l, LastOf(batches), current[0]))
    && (|current| > 1 ==> !Rich(cost, l, current))
  }

  function LastOf<T>(batches: seq<seq<T>>): seq<T> {
    if batches == [] then [] else batches[|batches| - 1]
  }

  ghost predicate Open<T>(cost: Cost<T>, l: Limits, batches: seq<seq<T>>, current: seq<T>) {
    && AllFit(cost, l, batches) && Greedy(cost, l, batches)
    && (current != [] ==> Fits(cost, l, current) && StartsRight(cost, l, LastOf(batches), current))
    && (batches != [] ==> Ended(cost, l, batches[|batches| - 1], current))
  }

  ghost predicate Ended<T>(cost: Cost<T>, l: Limits, batch: seq<T>, current: seq<T>) {
    if current == [] then Rich(cost, l, batch) else EndsFor(cost, l, batch, current[0])
  }

  lemma Extend<T>(cost: Cost<T>, l: Limits, batches: seq<seq<T>>, current: seq<T>, item: T)
    requires Packed(cost, l, batches, current) && (current == [] || !TooBig(cost, l, current + [item]))
    ensures Open(cost, l, batches, current + [item])
  {
    var next := current + [item];
    assert current != [] ==> next[..1] == current[..1] && (|current| == 1 ==> next[..1] == current);
    forall n | 1 < n < |next|
      ensures !Rich(cost, l, next[..n])
    {
      assert next[..n] == current[..n];
      assert n == |current| ==> current[..n] == current;
    }
  }

  lemma CloseLast<T>(cost: Cost<T>, l: Limits, batches: seq<seq<T>>, current: seq<T>)
    requires Open(cost, l, batches, current) && current != []
    ensures AllFit(cost, l, batches + [current]) && Greedy(cost, l, batches + [current])
  {
    var all := batches + [current];
    forall k | 0 < k < |all|
      ensures Follows(cost, l, all[k - 1], all[k]) && StartsRight(cost, l, all[k - 1], all[k])
    {
      if k < |batches| {
        assert Follows(cost, l, batches[k - 1], batches[k]) && StartsRight(cost, l, batches[k - 1], batches[k]);
      }
    }
  }

  lemma CloseFor<T>(cost: Cost<T>, l: Limits, batches: seq<seq<T>>, current: seq<T>, next: T)
    requires Open(cost, l, batches, current) && current != [] && TooBig(cost, l, current + [next])
    ensures Packed(cost, l, batches + [current], [next])
  {
    CloseLast(cost, l, batches, current);
  }

  lemma CloseRich<T>(cost: Cost<T>, l: Limits, batches: seq<seq<T>>, current: seq<T>)
    requires Open(cost, l, batches, current) && Rich(cost, l, current) && current != []
    ensures Packed(cost, l, batches + [current], [])
  {
    CloseLast(cost, l, batches, current);
  }
}
