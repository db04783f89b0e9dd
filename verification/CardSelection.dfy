/** Bounded card selection (the selection and trimming loops of `build_context` in
    `scripts/prefix/Defensive-compiler.py`). */
module CardSelection {
  import opened Wrappers
  import opened CardOrder

  // --- Selection -------------------------------------------------------------------------------------------

  /** Token counts, digests and the path test stand outside the model. `quick` and `full` give the largest
      probe rendering of a selection; `base` is what the header, the mandatory cards and the anchors cost. */
  datatype Rules = Rules(
    budget: int, maxCard: int, base: int,
    cost: Card -> int,
    excluded: Card -> bool,
    longContext: Card -> Option<string>,
    longExcerpt: Card -> bool,
    excerpt: Card -> string,
    quick: seq<Card> -> int,
    full: seq<Card> -> int)

  /** The long texts a selected card contributes. */
  function Long(r: Rules, c: Card): set<string> {
    (if r.longContext(c).Some? then {r.longContext(c).value} else {}) + (if r.longExcerpt(c) then {r.excerpt(c)} else {})
  }

  /** The texts for which a card is passed over when they are already there. */
  function Texts(r: Rules, c: Card): set<string> {
    (if r.longContext(c).Some? then {r.longContext(c).value} else {}) + {r.excerpt(c)}
  }

  function Cost(r: Rules, s: seq<Card>): int {
    if s == [] then 0 else Cost(r, s[..|s| - 1]) + r.cost(s[|s| - 1])
  }

  predicate Eligible(r: Rules, c: Card) {
    !r.excluded(c) && r.cost(c) <= r.maxCard
  }

  /** No card repeats a long text of an earlier one. */
  predicate Fresh(r: Rules, a: Card, b: Card) {
    Long(r, a) !! Texts(r, b)
  }

  /** What the greedy loop promises about the cards it added. */
  ghost predicate Picked(r: Rules, known: set<string>, picks: seq<Card>) {
    && (picks != [] ==> r.base + Cost(r, picks) <= r.budget - 512)
    && (forall i | 0 <= i < |picks| :: Eligible(r, picks[i]) && known !! Texts(r, picks[i]))
    && (forall i, j | 0 <= i < j < |picks| :: Fresh(r, picks[i], picks[j]))
  }

  /** The tests of one pass, in order. */
  predicate Takes(r: Rules, long: set<string>, used: int, c: Card) {
    && !r.excluded(c)
    && !(r.longContext(c).Some? && r.longContext(c).value in long) && r.excerpt(c) !in long
    && r.cost(c) <= r.maxCard
    && used + r.cost(c) <= r.budget - 512
  }

  /** All long texts there are once `picks` are selected. */
  function Texted(r: Rules, known: set<string>, picks: seq<Card>): set<string> {
    if picks == [] then known else Texted(r, known, picks[..|picks| - 1]) + Long(r, picks[|picks| - 1])
  }

  /** With `picks` selected, the budget is not yet used up and card `c` passes every test. */
  predicate Accepts(r: Rules, known: set<string>, picks: seq<Card>, c: Card) {
    r.base + Cost(r, picks) < r.budget - 1024 && Takes(r, Texted(r, known, picks), r.base + Cost(r, picks), c)
  }

  /** The greedy selection: each card in turn, if it is acceptable after those selected before it. */
  function Chosen(r: Rules, known: set<string>, s: seq<Card>): seq<Card> {
    if s == [] then []
    else
      var before, c := Chosen(r, known, s[..|s| - 1]), s[|s| - 1];
      if Accepts(r, known, before, c) then before + [c] else before
  }

  function Passed(r: Rules, known: set<string>, s: seq<Card>): seq<Card> {
    if s == [] then []
    else
      var before, c := Passed(r, known, s[..|s| - 1]), s[|s| - 1];
      if Accepts(r, known, Chosen(r, known, s[..|s| - 1]), c) then before else before + [c]
  }

  lemma ChosenOne(r: Rules, known: set<string>, s: seq<Card>, c: Card)
    ensures var picks := Chosen(r, known, s);
            && Chosen(r, known, s + [c]) == (if Accepts(r, known, picks, c) then picks + [c] else picks)
            && Passed(r, known, s + [c]) == (if Accepts(r, known, picks, c) then Passed(r, known, s) else Passed(r, known, s) + [c])
  {
    assert (s + [c])[..|s|] == s;
  }

  lemma PickedOne(r: Rules, known: set<string>, picks: seq<Card>, c: Card)
    ensures Cost(r, picks + [c]) == Cost(r, picks) + r.cost(c)
    ensures Texted(r, known, picks + [c]) == Texted(r, known, picks) + Long(r, c)
  {
    assert (picks + [c])[..|picks|] == picks;
  }

  // What the selection keeps.

  lemma {:induction false} TextedAll(r: Rules, known: set<string>, picks: seq<Card>, i: nat)
    requires i < |picks|
    ensures Long(r, picks[i]) <= Texted(r, known, picks) && known <= Texted(r, known, picks)
  {
    if i < |picks| - 1 {
      TextedAll(r, known, picks[..|picks| - 1], i);
    } else if i > 0 {
      TextedAll(r, known, picks[..|picks| - 1], 0);
    }
  }

  lemma TakesFresh(r: Rules, long: set<string>, used: int, c: Card)
    requires Takes(r, long, used, c)
    ensures Eligible(r, c) && long !! Texts(r, c)
  {
  }

  lemma PickMore(r: Rules, known: set<string>, picks: seq<Card>, c: Card)
    requires Picked(r, known, picks) && Accepts(r, known, picks, c)
    ensures Picked(r, known, picks + [c])
  {
    var all := picks + [c];
    PickedOne(r, known, picks, c);
    TakesFresh(r, Texted(r, known, picks), r.base + Cost(r, picks), c);
    forall i, j | 0 <= i < j < |all|
      ensures Fresh(r, all[i], all[j])
    {
      assert j < |picks| ==> Fresh(r, picks[i], picks[j]);
      TextedAll(r, known, picks, i);
    }
    if picks != [] {
      TextedAll(r, known, picks, 0);
    }
  }

  /** The selection stays within the budget and the card limit and repeats no long text. */
  lemma {:induction false} ChosenPicked(r: Rules, known: set<string>, s: seq<Card>)
    ensures Picked(r, known, Chosen(r, known, s))
  {
    if s != [] {
      var before := s[..|s| - 1];
      ChosenPicked(r, known, before);
      if Accepts(r, known, Chosen(r, known, before), s[|s| - 1]) {
        PickMore(r, known, Chosen(r, known, before), s[|s| - 1]);
      }
    }
  }

  ghost predicate Divided(s: seq<Card>, picks: seq<Card>, omitted: seq<Card>) {
    multiset(picks) + multiset(omitted) == multiset(s)
  }

  /** Every card is selected or omitted. */
  lemma {:induction false} ChosenDivided(r: Rules, known: set<string>, s: seq<Card>)
    ensures Divided(s, Chosen(r, known, s), Passed(r, known, s))
  {
    if s != [] {
      ChosenDivided(r, known, s[..|s| - 1]);
      assert s == s[..|s| - 1] + [s[|s| - 1]];
    }
  }

  ghost predicate Rising(at: seq<nat>, n: nat) {
    (forall k | 0 <= k < |at| :: at[k] < n) && forall k, l | 0 <= k < l < |at| :: at[k] < at[l]
  }

  /** The card at `i` is acceptable after those selected before it. */
  predicate AcceptedAt(r: Rules, known: set<string>, s: seq<Card>, i: nat)
    requires i < |s|
  {
    Accepts(r, known, Chosen(r, known, s[..i]), s[i])
  }

  /** `at` are the places of the selected cards, and the places where a card is acceptable. */
  ghost predicate Places(r: Rules, known: set<string>, s: seq<Card>, at: seq<nat>) {
    && Rising(at, |s|) && |at| == |Chosen(r, known, s)|
    && (forall k | 0 <= k < |at| :: Chosen(r, known, s)[k] == s[at[k]])
    && (forall i: nat {:trigger AcceptedAt(r, known, s, i)} | i < |s| :: i in at <==> AcceptedAt(r, known, s, i))
  }

  lemma AcceptedSame(r: Rules, known: set<string>, s: seq<Card>, c: Card, i: nat)
    requires i <= |s|
    ensures AcceptedAt(r, known, s + [c], i) == if i < |s| then AcceptedAt(r, known, s, i) else Accepts(r, known, Chosen(r, known, s), c)
  {
    var t := s + [c];
    assert t[..i] == s[..i];
    assert i == |s| ==> s[..i] == s;
  }

  lemma RisingMore(at: seq<nat>, n: nat)
    requires Rising(at, n)
    ensures Rising(at, n + 1) && Rising(at + [n], n + 1) && n !in at
    ensures forall i: nat :: i in at + [n] <==> i in at || i == n
  {
  }

  lemma PlacesMore(r: Rules, known: set<string>, s: seq<Card>, c: Card, at: seq<nat>, at': seq<nat>)
    requires Places(r, known, s, at)
    requires at' == if Accepts(r, known, Chosen(r, known, s), c) then at + [|s|] else at
    ensures Places(r, known, s + [c], at')
  {
    ChosenOne(r, known, s, c);
    RisingMore(at, |s|);
    forall i: nat | i < |s + [c]|
      ensures i in at' <==> AcceptedAt(r, known, s + [c], i)
    {
      AcceptedSame(r, known, s, c, i);
    }
  }

  /** The selected cards stand in the order offered, and a card is among them exactly when it is acceptable
      after those selected before it: a card is omitted for a reason at its own place. */
  lemma {:induction false} ChosenInOrder(r: Rules, known: set<string>, s: seq<Card>) returns (at: seq<nat>)
    ensures Places(r, known, s, at)
  {
    if s == [] {
      at := [];
    } else {
      var before, c := s[..|s| - 1], s[|s| - 1];
      var places := ChosenInOrder(r, known, before);
      at := if Accepts(r, known, Chosen(r, known, before), c) then places + [|before|] else places;
      PlacesMore(r, known, before, c, places, at);
      assert before + [c] == s;
    }
  }

  /** Once the budget is used up nothing more is selected. */
  lemma {:induction false} ChosenStops(r: Rules, known: set<string>, s: seq<Card>, i: nat)
    requires i <= |s| && r.base + Cost(r, Chosen(r, known, s[..i])) >= r.budget - 1024
    ensures Chosen(r, known, s) == Chosen(r, known, s[..i])
    ensures Passed(r, known, s) == Passed(r, known, s[..i]) + s[i..]
    decreases |s|
  {
    if i == |s| {
      assert s[..i] == s;
    } else {
      var n := |s| - 1;
      assert s[..n][..i] == s[..i];
      ChosenStops(r, known, s[..n], i);
      StopsPassed(r, known, s, i);
    }
  }

  lemma StopsPassed(r: Rules, known: set<string>, s: seq<Card>, i: nat)
    requires i < |s| && Passed(r, known, s) == Passed(r, known, s[..|s| - 1]) + [s[|s| - 1]]
    requires Passed(r, known, s[..|s| - 1]) == Passed(r, known, s[..i]) + s[..|s| - 1][i..]
    ensures Passed(r, known, s) == Passed(r, known, s[..i]) + s[i..]
  {
    assert s[..|s| - 1][i..] + [s[|s| - 1]] == s[i..];
  }

  /** The greedy loop over the cards in the order offered. */
  method Greedy(r: Rules, known: set<string>, ordered: seq<Card>) returns (picks: seq<Card>, omitted: seq<Card>)
    ensures picks == Chosen(r, known, ordered) && omitted == Passed(r, known, ordered)
    ensures multiset(picks) + multiset(omitted) == multiset(ordered)
    ensures Picked(r, known, picks)
  {
    picks, omitted := [], [];
    var used, long := r.base, known;
    ChosenPicked(r, known, ordered);
    ChosenDivided(r, known, ordered);
    for i := 0 to |ordered|
      invariant picks == Chosen(r, known, ordered[..i]) && omitted == Passed(r, known, ordered[..i])
      invariant used == r.base + Cost(r, picks) && long == Texted(r, known, picks)
    {
      var c := ordered[i];
      if used >= r.budget - 1024 {
        ChosenStops(r, known, ordered, i);
        omitted := omitted + ordered[i..];
        return;
      }
      assert ordered[..i + 1] == ordered[..i] + [c];
      ChosenOne(r, known, ordered[..i], c);
      PickedOne(r, known, picks, c);
      if Takes(r, long, used, c) {
        picks, used, long := picks + [c], used + r.cost(c), long + Long(r, c);
      } else {
        omitted := omitted + [c];
      }
    }
    assert ordered[..|ordered|] == ordered;
  }

  // --- Trimming ----------------------------------------------------------------------------------------------

  predicate Renders(r: Rules, s: seq<Card>) {
    r.quick(s) <= r.budget && r.full(s) <= r.budget
  }

  /** The lengths a trimmed selection may have: never empty, never less than the mandatory cards. */
  predicate Allowed(mandatory: seq<Card>, chosen: seq<Card>, n: int) {
    1 <= n <= |chosen| && |mandatory| <= n
  }

  /** Cards are dropped from the end until the rendering fits. The result is the longest part that does;
      it fails exactly when no allowed part does. */
  method Trim(r: Rules, mandatory: seq<Card>, chosen: seq<Card>, omitted: seq<Card>) returns (result: Result<(seq<Card>, seq<Card>)>)
    requires mandatory <= chosen
    requires forall i | |mandatory| <= i < |chosen| :: chosen[i].id !in Identities(mandatory)
    ensures result.Raised? <==> forall n | Allowed(mandatory, chosen, n) :: !Renders(r, chosen[..n])
    ensures result.Ok? ==>
              && Allowed(mandatory, chosen, |result.value.0|) && result.value.0 <= chosen && Renders(r, result.value.0)
              && (forall n | Allowed(mandatory, chosen, n) && n > |result.value.0| :: !Renders(r, chosen[..n]))
              && multiset(result.value.0) + multiset(result.value.1) == multiset(chosen) + multiset(omitted)
  {
    var selected, left := chosen, omitted;
    while selected != []
      invariant selected <= chosen && |mandatory| <= |selected|
      invariant forall n | Allowed(mandatory, chosen, n) && n > |selected| :: !Renders(r, chosen[..n])
      invariant multiset(selected) + multiset(left) == multiset(chosen) + multiset(omitted)
      decreases |selected|
    {
      var n := |selected|;
      assert chosen[..n] == selected;
      if r.quick(selected) <= r.budget && r.full(selected) <= r.budget {
        return Ok((selected, left));
      }
      var last := selected[n - 1];
      if n == |mandatory| {
        assert mandatory[n - 1] == last;
      }
      if last.id in Identities(mandatory) {
        assert n == |mandatory| by {
          assert selected[n - 1] == chosen[n - 1];
        }
        return Raised;
      }
      assert selected == selected[..n - 1] + [last];
      selected, left := selected[..n - 1], left + [last];
    }
    result := Raised;
  }

  function Identities(s: seq<Card>): set<string> {
    set i | 0 <= i < |s| :: s[i].id
  }

  // --- The whole selection -------------------------------------------------------------------------------------

  /** The cards without those of some identities. */
  function Without(s: seq<Card>, ids: set<string>): seq<Card> {
    if s == [] then []
    else if s[|s| - 1].id in ids then Without(s[..|s| - 1], ids)
    else Without(s[..|s| - 1], ids) + [s[|s| - 1]]
  }

  lemma {:induction false} WithoutCounts(s: seq<Card>, ids: set<string>, c: Card)
    ensures multiset(Without(s, ids))[c] == (if c.id in ids then 0 else multiset(s)[c])
  {
    if s != [] {
      var n := |s| - 1;
      WithoutCounts(s[..n], ids, c);
      assert s == s[..n] + [s[n]];
    }
  }

  predicate DistinctIds(s: seq<Card>) {
    forall i, j | 0 <= i < j < |s| :: s[i].id != s[j].id
  }

  lemma {:induction false} CountOnce(s: seq<Card>, i: nat)
    requires DistinctIds(s) && i < |s|
    ensures multiset(s)[s[i]] == 1
  {
    var n := |s| - 1;
    assert s == s[..n] + [s[n]];
    if i < n {
      CountOnce(s[..n], i);
    } else {
      assert s[n] !in s[..n];
    }
  }

  /** The mandatory cards and the others make up all cards. */
  lemma MandatoryAndOthers(cards: seq<Card>, mandatory: seq<Card>, balanced: seq<Card>)
    requires DistinctIds(cards) && DistinctIds(mandatory) && (forall i | 0 <= i < |mandatory| :: mandatory[i] in cards)
    requires multiset(balanced) == multiset(cards)
    ensures multiset(mandatory) + multiset(Without(balanced, Identities(mandatory))) == multiset(cards)
  {
    forall c: Card
      ensures multiset(mandatory)[c] + multiset(Without(balanced, Identities(mandatory)))[c] == multiset(cards)[c]
    {
      WithoutCounts(balanced, Identities(mandatory), c);
      MandatoryCounts(cards, mandatory, c);
    }
  }

  lemma MandatoryCounts(cards: seq<Card>, mandatory: seq<Card>, c: Card)
    requires DistinctIds(cards) && DistinctIds(mandatory) && (forall i | 0 <= i < |mandatory| :: mandatory[i] in cards)
    ensures multiset(mandatory)[c] == (if c.id in Identities(mandatory) then multiset(cards)[c] else 0)
  {
    if c.id in Identities(mandatory) {
      var i :| 0 <= i < |mandatory| && mandatory[i].id == c.id;
      CountOnce(mandatory, i);
      var j :| 0 <= j < |cards| && cards[j] == mandatory[i];
      CountOnce(cards, j);
      if c in cards {
        var k :| 0 <= k < |cards| && cards[k] == c;
        assert cards[k].id == cards[j].id;
      }
    }
  }

  lemma {:induction false} WithoutIds(s: seq<Card>, ids: set<string>, k: nat)
    requires k < |Without(s, ids)|
    ensures Without(s, ids)[k].id !in ids
  {
    var n := |s| - 1;
    if k < |Without(s[..n], ids)| {
      WithoutIds(s[..n], ids, k);
    }
  }

  /** A card from either part of a division is from the whole. */
  lemma PicksOutside(ordered: seq<Card>, picks: seq<Card>, omitted: seq<Card>, ids: set<string>, k: nat)
    requires Divided(ordered, picks, omitted) && k < |picks|
    requires forall i | 0 <= i < |ordered| :: ordered[i].id !in ids
    ensures picks[k].id !in ids
  {
    assert picks[k] in multiset(picks);
    assert picks[k] in multiset(ordered);
    var i :| 0 <= i < |ordered| && ordered[i] == picks[k];
  }

  datatype Selected = Selected(selected: seq<Card>, omitted: seq<Card>)

  /** Selection and trimming together. The greedy selection is the mandatory cards and then whatever the
      balanced order offers and is acceptable in turn. On success the selected and omitted cards divide all
      cards, every mandatory card is selected, and the full rendering is within the budget; it is the longest
      part of the greedy selection for which that holds, and there is none exactly on failure. */
  method SelectCards(r: Rules, known: set<string>, cards: seq<Card>, mandatory: seq<Card>)
      returns (result: Result<Selected>, balanced: seq<Card>, greedy: seq<Card>)
    requires DistinctIds(cards) && DistinctIds(mandatory) && (forall i | 0 <= i < |mandatory| :: mandatory[i] in cards)
    ensures Balanced(cards, balanced)
    ensures greedy == mandatory + Chosen(r, known, Without(balanced, Identities(mandatory)))
    ensures result.Raised? <==> forall n | Allowed(mandatory, greedy, n) :: !Renders(r, greedy[..n])
    ensures result.Ok? ==>
              && multiset(result.value.selected) + multiset(result.value.omitted) == multiset(cards)
              && mandatory <= result.value.selected <= greedy && result.value.selected != []
              && r.full(result.value.selected) <= r.budget
              && (forall n | Allowed(mandatory, greedy, n) && n > |result.value.selected| :: !Renders(r, greedy[..n]))
  {
    balanced := BalancedCards(cards);
    var ids := Identities(mandatory);
    var ordered := Without(balanced, ids);
    MandatoryAndOthers(cards, mandatory, balanced);
    var picks, omitted := Greedy(r, known, ordered);
    greedy := mandatory + picks;
    OthersFollow(balanced, mandatory, ordered, picks, omitted);
    var trimmed := Trim(r, mandatory, greedy, omitted);
    if trimmed.Raised? {
      return Raised, balanced, greedy;
    }
    result := Ok(Selected(trimmed.value.0, trimmed.value.1));
    assert multiset(greedy) == multiset(mandatory) + multiset(picks);
  }

  lemma OthersFollow(balanced: seq<Card>, mandatory: seq<Card>, ordered: seq<Card>, picks: seq<Card>, omitted: seq<Card>)
    requires ordered == Without(balanced, Identities(mandatory)) && Divided(ordered, picks, omitted)
    ensures forall i | |mandatory| <= i < |mandatory + picks| :: (mandatory + picks)[i].id !in Identities(mandatory)
  {
    var ids := Identities(mandatory);
    forall i | 0 <= i < |ordered|
      ensures ordered[i].id !in ids
    {
      WithoutIds(balanced, ids, i);
    }
    forall i | |mandatory| <= i < |mandatory + picks|
      ensures (mandatory + picks)[i].id !in ids
    {
      PicksOutside(ordered, picks, omitted, ids, i - |mandatory|);
    }
  }

  /** The division of cards is one of identities: none is both selected and omitted. */
  lemma IdsPartition(cards: seq<Card>, selected: seq<Card>, omitted: seq<Card>)
    requires DistinctIds(cards) && multiset(selected) + multiset(omitted) == multiset(cards)
    ensures Identities(selected) !! Identities(omitted) && Identities(selected) + Identities(omitted) == Identities(cards)
  {
    forall a, b | a in selected && b in omitted
      ensures a.id != b.id
    {
      assert a in multiset(selected) && b in multiset(omitted);
      assert a in multiset(cards) && b in multiset(cards);
      var i :| 0 <= i < |cards| && cards[i] == a;
      var j :| 0 <= j < |cards| && cards[j] == b;
      CountOnce(cards, i);
      assert i != j;
    }
    forall id
      ensures id in Identities(selected) + Identities(omitted) <==> id in Identities(cards)
    {
      IdentityOf(cards, selected, omitted, id);
    }
  }

  lemma IdentityOf(cards: seq<Card>, selected: seq<Card>, omitted: seq<Card>, id: string)
    requires multiset(selected) + multiset(omitted) == multiset(cards)
    ensures id in Identities(selected) + Identities(omitted) <==> id in Identities(cards)
  {
    if id in Identities(cards) {
      var i :| 0 <= i < |cards| && cards[i].id == id;
      assert cards[i] in multiset(cards);
      assert cards[i] in selected || cards[i] in omitted;
    }
    if id in Identities(selected) {
      var i :| 0 <= i < |selected| && selected[i].id == id;
      assert selected[i] in multiset(selected);
      assert selected[i] in multiset(cards);
    }
    if id in Identities(omitted) {
      var i :| 0 <= i < |omitted| && omitted[i].id == id;
      assert omitted[i] in multiset(omitted);
      assert omitted[i] in multiset(cards);
    }
  }
}
