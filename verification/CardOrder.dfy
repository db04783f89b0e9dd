/** The order in which evidence cards are offered for selection (`balanced_cards` of
    `scripts/prefix/Defensive-compiler.py`). */
module CardOrder {
  import N = Names

  /** `rank` stands for the place of the sort key (priority, path, line, identity). */
  datatype Card = Card(id: string, repo: string, rank: int, content: string)

  // --- Queues ------------------------------------------------------------------------------------------

  /** The cards of one source, in the order given. */
  function Of(s: seq<Card>, repo: string): (r: seq<Card>)
    ensures |r| <= |s|
  {
    if s == [] then []
    else if s[|s| - 1].repo == repo then Of(s[..|s| - 1], repo) + [s[|s| - 1]]
    else Of(s[..|s| - 1], repo)
  }

  lemma OfOne(s: seq<Card>, c: Card, repo: string)
    ensures Of(s + [c], repo) == (if c.repo == repo then Of(s, repo) + [c] else Of(s, repo))
  {
    assert (s + [c])[..|s|] == s;
  }

  /** A card occurs as often in its source's queue as in the whole. */
  lemma {:induction false} OfCounts(s: seq<Card>, c: Card)
    ensures multiset(Of(s, c.repo))[c] == multiset(s)[c]
  {
    if s != [] {
      var n := |s| - 1;
      OfCounts(s[..n], c);
      assert s == s[..n] + [s[n]];
    }
  }

  predicate Ranked(s: seq<Card>) {
    forall i, j | 0 <= i < j < |s| :: s[i].rank <= s[j].rank
  }

  /** Insertion into a ranked queue, after equals. */
  function Insert(s: seq<Card>, c: Card): (r: seq<Card>)
    requires Ranked(s)
    ensures Ranked(r) && multiset(r) == multiset(s) + multiset{c} && |r| == |s| + 1
  {
    if s == [] || s[|s| - 1].rank <= c.rank then s + [c]
    else
      var rest := Insert(s[..|s| - 1], c);
      InsertLast(s, c, rest);
      rest + [s[|s| - 1]]
  }

  lemma InsertLast(s: seq<Card>, c: Card, rest: seq<Card>)
    requires Ranked(s) && s != [] && s[|s| - 1].rank > c.rank
    requires Ranked(rest) && multiset(rest) == multiset(s[..|s| - 1]) + multiset{c}
    ensures Ranked(rest + [s[|s| - 1]]) && multiset(rest + [s[|s| - 1]]) == multiset(s) + multiset{c}
  {
    var last := s[|s| - 1];
    assert s == s[..|s| - 1] + [last];
    forall i | 0 <= i < |rest|
      ensures rest[i].rank <= last.rank
    {
      assert rest[i] in multiset(rest);
      assert rest[i] == c || rest[i] in s[..|s| - 1];
    }
  }

  /** `queue.sort(key=...)`. */
  function Sorted(s: seq<Card>): (r: seq<Card>)
    ensures Ranked(r) && multiset(r) == multiset(s) && |r| == |s|
  {
    if s == [] then []
    else
      assert s == s[..|s| - 1] + [s[|s| - 1]];
      Insert(Sorted(s[..|s| - 1]), s[|s| - 1])
  }

  // --- Fairness ------------------------------------------------------------------------------------------

  /** As long as a source has cards left, no other source is more than one card ahead of it. */
  ghost predicate FairAt(all: seq<Card>, prefix: seq<Card>) {
    forall a: string, b: string | |Of(prefix, b)| < |Of(all, b)| :: |Of(prefix, a)| <= |Of(prefix, b)| + 1
  }

  ghost predicate Fair(all: seq<Card>, s: seq<Card>) {
    forall n | 0 <= n <= |s| :: FairAt(all, s[..n])
  }

  /** The first `n` cards, or all of them. */
  function First(q: seq<Card>, n: nat): seq<Card> {
    if n <= |q| then q[..n] else q
  }

  lemma FirstOne(q: seq<Card>, n: nat)
    requires n < |q|
    ensures First(q, n + 1) == First(q, n) + [q[n]]
  {
  }

  type Queues = map<string, seq<Card>>

  /** Each source has its own queue of its own cards. */
  ghost predicate OwnQueues(queues: Queues, repos: seq<string>) {
    && (forall k | 0 <= k < |repos| :: repos[k] in queues && AllFrom(queues[repos[k]], repos[k]))
    && (forall k, l | 0 <= k < l < |repos| :: repos[k] != repos[l])
  }

  ghost predicate AllFrom(q: seq<Card>, repo: string) {
    forall i | 0 <= i < |q| :: q[i].repo == repo
  }

  /** The source has had `turns` turns: its best cards are out, in order. */
  ghost predicate Had(q: seq<Card>, s: seq<Card>, repo: string, turns: nat) {
    Of(s, repo) == First(q, turns)
  }

  /** Half-way through round `i`: sources before position `j` have had their turn in it. */
  ghost predicate Turn(queues: Queues, repos: seq<string>, i: nat, j: nat, s: seq<Card>)
    requires OwnQueues(queues, repos)
  {
    && (forall k {:trigger repos[k]} | 0 <= k < |repos| :: Had(queues[repos[k]], s, repos[k], if k < j then i + 1 else i))
    && (forall repo: string | repo !in repos :: Of(s, repo) == [])
  }

  /** The queues are those of these cards. */
  ghost predicate QueuesOf(cards: seq<Card>, queues: Queues, repos: seq<string>)
    requires OwnQueues(queues, repos)
  {
    && (forall k | 0 <= k < |repos| :: |queues[repos[k]]| == |Of(cards, repos[k])|)
    && (forall repo: string | repo !in repos :: Of(cards, repo) == [])
  }

  lemma TurnFair(cards: seq<Card>, queues: Queues, repos: seq<string>, i: nat, j: nat, s: seq<Card>)
    requires OwnQueues(queues, repos) && QueuesOf(cards, queues, repos) && Turn(queues, repos, i, j, s)
    ensures FairAt(cards, s)
  {
    forall a: string, b: string | |Of(s, b)| < |Of(cards, b)|
      ensures |Of(s, a)| <= |Of(s, b)| + 1
    {
      TurnCounts(cards, queues, repos, i, j, s, a);
      TurnCounts(cards, queues, repos, i, j, s, b);
    }
  }

  /** A source is out of cards or has had `i` or `i + 1` of them. */
  lemma TurnCounts(cards: seq<Card>, queues: Queues, repos: seq<string>, i: nat, j: nat, s: seq<Card>, a: string)
    requires OwnQueues(queues, repos) && QueuesOf(cards, queues, repos) && Turn(queues, repos, i, j, s)
    ensures |Of(s, a)| <= i + 1 && (|Of(s, a)| < |Of(cards, a)| ==> |Of(s, a)| >= i)
  {
    if a in repos {
      var k :| 0 <= k < |repos| && repos[k] == a;
      assert Had(queues[repos[k]], s, repos[k], if k < j then i + 1 else i);
    }
  }

  /** The next source takes its turn. */
  lemma TurnStep(queues: Queues, repos: seq<string>, i: nat, j: nat, s: seq<Card>)
    requires OwnQueues(queues, repos) && Turn(queues, repos, i, j, s) && j < |repos|
    ensures var q := queues[repos[j]]; Turn(queues, repos, i, j + 1, if i < |q| then s + [q[i]] else s)
  {
    var q := queues[repos[j]];
    assert Had(q, s, repos[j], i);
    if i < |q| {
      assert q[i].repo == repos[j];
      forall k | 0 <= k < |repos|
        ensures Had(queues[repos[k]], s + [q[i]], repos[k], if k < j + 1 then i + 1 else i)
      {
        TurnHad(queues, repos, i, j, s, k);
      }
      forall repo: string | repo !in repos
        ensures Of(s + [q[i]], repo) == []
      {
        OfOne(s, q[i], repo);
      }
    }
  }

  lemma TurnHad(queues: Queues, repos: seq<string>, i: nat, j: nat, s: seq<Card>, k: nat)
    requires OwnQueues(queues, repos) && Turn(queues, repos, i, j, s) && j < |repos| && k < |repos| && i < |queues[repos[j]]|
    ensures Had(queues[repos[k]], s + [queues[repos[j]][i]], repos[k], if k < j + 1 then i + 1 else i)
  {
    var q := queues[repos[j]];
    assert q[i].repo == repos[j];
    HadStep(queues[repos[k]], s, repos[k], if k < j then i + 1 else i, q[i], k == j);
  }

  lemma HadStep(q: seq<Card>, s: seq<Card>, repo: string, turns: nat, c: Card, own: bool)
    requires Had(q, s, repo, turns) && (own <==> c.repo == repo) && (own ==> turns < |q| && c == q[turns])
    ensures Had(q, s + [c], repo, if own then turns + 1 else turns)
  {
    OfOne(s, c, repo);
    if own {
      FirstOne(q, turns);
    }
  }

  lemma FairMore(all: seq<Card>, s: seq<Card>, c: Card)
    requires Fair(all, s) && FairAt(all, s + [c])
    ensures Fair(all, s + [c])
  {
    var t := s + [c];
    forall n | 0 <= n <= |t|
      ensures FairAt(all, t[..n])
    {
      if n <= |s| {
        assert t[..n] == s[..n];
      } else {
        assert t[..n] == t;
      }
    }
  }

  // --- Turns ---------------------------------------------------------------------------------------------

  /** How many cards of its own source stand before the card at `n`. */
  function TurnOf(s: seq<Card>, n: nat): nat
    requires n < |s|
  {
    |Of(s[..n], s[n].repo)|
  }

  /** An earlier turn, or the same turn of a source with a smaller name. */
  predicate Sooner(s: seq<Card>, m: nat, n: nat)
    requires m < |s| && n < |s|
  {
    TurnOf(s, m) < TurnOf(s, n) || (TurnOf(s, m) == TurnOf(s, n) && N.Less(s[m].repo, s[n].repo))
  }

  /** The cards come by turns, and within a turn by source name. */
  ghost predicate InTurn(s: seq<Card>) {
    forall m, n {:trigger Sooner(s, m, n)} | 0 <= m < n < |s| :: Sooner(s, m, n)
  }

  /** What `balanced_cards` returns: each source in rank order, the whole by turns. */
  ghost predicate Balanced(cards: seq<Card>, s: seq<Card>) {
    (forall repo: string :: Of(s, repo) == Sorted(Of(cards, repo))) && InTurn(s)
  }

  lemma TurnAppend(s: seq<Card>, c: Card, m: nat)
    requires m <= |s|
    ensures TurnOf(s + [c], m) == if m < |s| then TurnOf(s, m) else |Of(s, c.repo)|
  {
    assert (s + [c])[..m] == s[..m];
    assert m == |s| ==> s[..m] == s;
  }

  /** Every card out so far is of an earlier turn than `i`, or of turn `i` and a source before `j`. */
  ghost predicate Out(repos: seq<string>, i: nat, j: nat, s: seq<Card>) {
    forall m {:trigger TurnOf(s, m)} | 0 <= m < |s| :: TurnOf(s, m) < i || (TurnOf(s, m) == i && Among(repos, j, s[m].repo))
  }

  ghost predicate Among(repos: seq<string>, j: nat, repo: string) {
    exists k | 0 <= k < |repos| && k < j :: repos[k] == repo
  }

  lemma OutStep(repos: seq<string>, i: nat, j: nat, s: seq<Card>, c: Card)
    requires N.Increasing(repos) && j < |repos| && c.repo == repos[j] && |Of(s, c.repo)| == i
    requires Out(repos, i, j, s) && InTurn(s)
    ensures Out(repos, i, j + 1, s + [c]) && InTurn(s + [c])
  {
    var t := s + [c];
    forall m | 0 <= m < |t|
      ensures TurnOf(t, m) < i || (TurnOf(t, m) == i && Among(repos, j + 1, t[m].repo))
    {
      TurnAppend(s, c, m);
      if m == |s| {
        assert repos[j] == t[m].repo;
      } else if TurnOf(s, m) == i {
        AmongMore(repos, j, s[m].repo);
      }
    }
    forall m, n | 0 <= m < n < |t|
      ensures Sooner(t, m, n)
    {
      TurnAppend(s, c, m);
      TurnAppend(s, c, n);
      if n < |s| {
        assert Sooner(s, m, n);
      } else if TurnOf(s, m) == i {
        var k :| 0 <= k < |repos| && k < j && repos[k] == s[m].repo;
      }
    }
  }

  lemma AmongMore(repos: seq<string>, j: nat, repo: string)
    ensures Among(repos, j, repo) ==> Among(repos, j + 1, repo)
  {
    if Among(repos, j, repo) {
      var k :| 0 <= k < |repos| && k < j && repos[k] == repo;
      assert k < j + 1;
    }
  }

  lemma OutSkip(repos: seq<string>, i: nat, j: nat, s: seq<Card>)
    requires Out(repos, i, j, s)
    ensures Out(repos, i, j + 1, s) && Out(repos, i + 1, 0, s)
  {
    forall m | 0 <= m < |s|
      ensures TurnOf(s, m) < i || (TurnOf(s, m) == i && Among(repos, j + 1, s[m].repo))
    {
      AmongMore(repos, j, s[m].repo);
    }
  }

  // --- The order is unique -------------------------------------------------------------------------------

  lemma {:induction false} OfPrefix(s: seq<Card>, repo: string, n: nat)
    requires n <= |s|
    ensures Of(s[..n], repo) <= Of(s, repo)
    decreases |s|
  {
    if n < |s| {
      OfPrefix(s[..|s| - 1], repo, n);
      assert s[..|s| - 1][..n] == s[..n];
    } else {
      assert s[..n] == s;
    }
  }

  /** The card at `n` is its source's card of that turn. */
  lemma CardOfTurn(s: seq<Card>, n: nat)
    requires n < |s|
    ensures TurnOf(s, n) < |Of(s, s[n].repo)| && Of(s, s[n].repo)[TurnOf(s, n)] == s[n]
  {
    OfPrefix(s, s[n].repo, n + 1);
    assert s[..n + 1] == s[..n] + [s[n]];
    OfOne(s[..n], s[n], s[n].repo);
  }

  /** A source's card of any turn stands somewhere, at or after every place it has not reached. */
  lemma {:induction false} PlaceOfTurn(s: seq<Card>, repo: string, x: nat, from: nat) returns (n: nat)
    requires from <= |s| && |Of(s[..from], repo)| <= x < |Of(s, repo)|
    ensures from <= n < |s| && s[n].repo == repo && TurnOf(s, n) == x
    decreases |s| - from
  {
    assert s[..|s|] == s;
    assert s[..from + 1] == s[..from] + [s[from]];
    OfOne(s[..from], s[from], repo);
    if s[from].repo == repo && |Of(s[..from], repo)| == x {
      n := from;
    } else {
      n := PlaceOfTurn(s, repo, x, from + 1);
    }
  }

  lemma LessBoth(a: string, b: string)
    ensures !(N.Less(a, b) && N.Less(b, a))
  {
    if N.Less(a, b) && N.Less(b, a) {
      N.LessTransitive(a, b, a);
      N.LessIrreflexive(a);
    }
  }

  /** After equal beginnings two balanced orders go on with the same card. */
  lemma SameNext(cards: seq<Card>, s: seq<Card>, t: seq<Card>, n: nat)
    requires Balanced(cards, s) && Balanced(cards, t) && n < |s| && n < |t| && s[..n] == t[..n]
    ensures s[n] == t[n]
  {
    CardOfTurn(s, n);
    CardOfTurn(t, n);
    var a, b := s[n].repo, t[n].repo;
    assert Of(s, a) == Of(t, a) && Of(s, b) == Of(t, b);
    if a != b {
      var x, y := TurnOf(s, n), TurnOf(t, n);
      var i := PlaceOfTurn(t, a, x, n);
      var j := PlaceOfTurn(s, b, y, n);
      assert Sooner(t, n, i) && Sooner(s, n, j);
      LessBoth(a, b);
      assert false;
    }
  }

  lemma {:induction false} SameBeginning(cards: seq<Card>, s: seq<Card>, t: seq<Card>, n: nat)
    requires Balanced(cards, s) && Balanced(cards, t) && n <= |s| && n <= |t|
    ensures s[..n] == t[..n]
  {
    if n > 0 {
      SameBeginning(cards, s, t, n - 1);
      SameNext(cards, s, t, n - 1);
      assert s[..n] == s[..n - 1] + [s[n - 1]] && t[..n] == t[..n - 1] + [t[n - 1]];
    }
  }

  /** There is one balanced order: it depends on nothing but each source's cards in their given order. */
  lemma BalancedUnique(cards: seq<Card>, s: seq<Card>, t: seq<Card>)
    requires Balanced(cards, s) && Balanced(cards, t)
    ensures s == t
  {
    SameCards(cards, s);
    SameCards(cards, t);
    assert |s| == |multiset(s)| == |multiset(t)| == |t|;
    SameBeginning(cards, s, t, |s|);
    assert s[..|s|] == s && t[..|t|] == t;
  }

  lemma {:induction false} OfRepo(cards: seq<Card>, repo: string, k: nat)
    requires k < |Of(cards, repo)|
    ensures Of(cards, repo)[k].repo == repo
  {
    if k < |Of(cards[..|cards| - 1], repo)| {
      OfRepo(cards[..|cards| - 1], repo, k);
    }
  }

  /** Every card of a source's sorted queue is of that source. */
  lemma QueueRepo(cards: seq<Card>, repo: string)
    ensures AllFrom(Sorted(Of(cards, repo)), repo)
  {
    var s := Of(cards, repo);
    forall k | 0 <= k < |s|
      ensures Sorted(s)[k].repo == repo
    {
      assert Sorted(s)[k] in multiset(Sorted(s));
      assert Sorted(s)[k] in s;
      var i :| 0 <= i < |s| && s[i] == Sorted(s)[k];
      OfRepo(cards, repo, i);
    }
  }

  /** The sources' queues in listing order, each sorted. */
  method FillQueues(cards: seq<Card>) returns (queues: Queues)
    ensures forall repo :: repo in queues <==> Of(cards, repo) != []
    ensures forall repo | repo in queues :: queues[repo] == Of(cards, repo)
  {
    queues := map[];
    for i := 0 to |cards|
      invariant forall repo :: repo in queues <==> Of(cards[..i], repo) != []
      invariant forall repo | repo in queues :: queues[repo] == Of(cards[..i], repo)
    {
      var c := cards[i];
      assert cards[..i + 1] == cards[..i] + [c];
      forall repo: string
        ensures Of(cards[..i + 1], repo) == (if c.repo == repo then Of(cards[..i], repo) + [c] else Of(cards[..i], repo))
      {
        OfOne(cards[..i], c, repo);
      }
      queues := queues[c.repo := (if c.repo in queues then queues[c.repo] else []) + [c]];
    }
    assert cards[..|cards|] == cards;
  }

  method LongestQueue(queues: Queues, repos: seq<string>) returns (rounds: nat)
    requires forall k | 0 <= k < |repos| :: repos[k] in queues
    ensures forall k | 0 <= k < |repos| :: |queues[repos[k]]| <= rounds
  {
    rounds := 0;
    for k := 0 to |repos|
      invariant forall l | 0 <= l < k :: |queues[repos[l]]| <= rounds
    {
      if |queues[repos[k]]| > rounds {
        rounds := |queues[repos[k]]|;
      }
    }
  }

  /** Each source's cards come in rank order, turn by turn and within a turn by source name; the whole is
      a permutation of the cards, and at every prefix no source leads another that still has cards by more
      than one. */
  method BalancedCards(cards: seq<Card>) returns (result: seq<Card>)
    ensures Balanced(cards, result)
    ensures multiset(result) == multiset(cards)
    ensures Fair(cards, result)
  {
    var queues := FillQueues(cards);
    queues := map repo | repo in queues :: Sorted(queues[repo]);
    var repos := N.Listing(queues.Keys);
    ListedQueues(cards, queues, repos);
    var rounds := LongestQueue(queues, repos);
    result := Deal(cards, queues, repos, rounds);
    DealtAll(cards, queues, repos, result);
    SameCards(cards, result);
  }

  lemma ListedQueues(cards: seq<Card>, queues: Queues, repos: seq<string>)
    requires N.Increasing(repos) && N.Elements(repos) == queues.Keys
    requires forall repo :: repo in queues <==> Of(cards, repo) != []
    requires forall repo | repo in queues :: queues[repo] == Sorted(Of(cards, repo))
    ensures OwnQueues(queues, repos) && QueuesOf(cards, queues, repos)
  {
    N.IncreasingDistinct(repos);
    forall k | 0 <= k < |repos|
      ensures repos[k] in queues && AllFrom(queues[repos[k]], repos[k])
    {
      assert repos[k] in N.Elements(repos);
      QueueRepo(cards, repos[k]);
    }
    forall repo: string | repo !in repos
      ensures Of(cards, repo) == []
    {
      assert repo !in N.Elements(repos);
    }
  }

  lemma DealtAll(cards: seq<Card>, queues: Queues, repos: seq<string>, result: seq<Card>)
    requires OwnQueues(queues, repos) && QueuesOf(cards, queues, repos)
    requires forall k | 0 <= k < |repos| :: queues[repos[k]] == Sorted(Of(cards, repos[k]))
    requires forall k | 0 <= k < |repos| :: Of(result, repos[k]) == queues[repos[k]]
    requires forall repo: string | repo !in repos :: Of(result, repo) == []
    ensures forall repo: string :: Of(result, repo) == Sorted(Of(cards, repo))
  {
    forall repo: string
      ensures Of(result, repo) == Sorted(Of(cards, repo))
    {
      if repo in repos {
        var k :| 0 <= k < |repos| && repos[k] == repo;
      }
    }
  }

  lemma SameCards(cards: seq<Card>, result: seq<Card>)
    requires forall repo: string :: Of(result, repo) == Sorted(Of(cards, repo))
    ensures multiset(result) == multiset(cards)
  {
    forall c: Card
      ensures multiset(result)[c] == multiset(cards)[c]
    {
      OfCounts(cards, c);
      OfCounts(result, c);
      assert multiset(Sorted(Of(cards, c.repo))) == multiset(Of(cards, c.repo));
    }
  }

  /** The two nested loops. */
  method Deal(ghost cards: seq<Card>, queues: Queues, repos: seq<string>, rounds: nat) returns (result: seq<Card>)
    requires OwnQueues(queues, repos) && QueuesOf(cards, queues, repos) && N.Increasing(repos)
    requires forall k | 0 <= k < |repos| :: |queues[repos[k]]| <= rounds
    ensures forall k | 0 <= k < |repos| :: Of(result, repos[k]) == queues[repos[k]]
    ensures forall repo: string | repo !in repos :: Of(result, repo) == []
    ensures InTurn(result) && Fair(cards, result)
  {
    result := [];
    assert Turn(queues, repos, 0, 0, result);
    for i := 0 to rounds
      invariant Turn(queues, repos, i, 0, result) && Ordered(cards, repos, i, 0, result)
    {
      result := DealRound(cards, queues, repos, i, result);
    }
    forall k | 0 <= k < |repos|
      ensures Of(result, repos[k]) == queues[repos[k]]
    {
      assert Had(queues[repos[k]], result, repos[k], rounds);
      FirstAll(queues[repos[k]], rounds);
    }
  }

  lemma FirstAll(q: seq<Card>, n: nat)
    requires |q| <= n
    ensures First(q, n) == q
  {
  }

  /** Fair and by turns so far. */
  ghost predicate Ordered(cards: seq<Card>, repos: seq<string>, i: nat, j: nat, s: seq<Card>) {
    Fair(cards, s) && InTurn(s) && Out(repos, i, j, s)
  }

  method DealRound(ghost cards: seq<Card>, queues: Queues, repos: seq<string>, i: nat, s: seq<Card>) returns (s': seq<Card>)
    requires OwnQueues(queues, repos) && QueuesOf(cards, queues, repos) && N.Increasing(repos)
    requires Turn(queues, repos, i, 0, s) && Ordered(cards, repos, i, 0, s)
    ensures Turn(queues, repos, i + 1, 0, s') && Ordered(cards, repos, i + 1, 0, s')
  {
    s' := s;
    for j := 0 to |repos|
      invariant Turn(queues, repos, i, j, s') && Ordered(cards, repos, i, j, s')
    {
      var q := queues[repos[j]];
      OrderedStep(cards, queues, repos, i, j, s');
      TurnStep(queues, repos, i, j, s');
      if i < |q| {
        s' := s' + [q[i]];
      }
    }
    NextRound(queues, repos, i, s');
    OutSkip(repos, i, |repos|, s');
  }

  lemma OrderedStep(cards: seq<Card>, queues: Queues, repos: seq<string>, i: nat, j: nat, s: seq<Card>)
    requires OwnQueues(queues, repos) && QueuesOf(cards, queues, repos) && N.Increasing(repos) && j < |repos|
    requires Turn(queues, repos, i, j, s) && Ordered(cards, repos, i, j, s)
    ensures var q := queues[repos[j]]; Ordered(cards, repos, i, j + 1, if i < |q| then s + [q[i]] else s)
  {
    var q := queues[repos[j]];
    OutSkip(repos, i, j, s);
    if i < |q| {
      assert Had(q, s, repos[j], i) && q[i].repo == repos[j];
      OutStep(repos, i, j, s, q[i]);
      TurnStep(queues, repos, i, j, s);
      TurnFair(cards, queues, repos, i, j + 1, s + [q[i]]);
      FairMore(cards, s, q[i]);
    }
  }

  lemma NextRound(queues: Queues, repos: seq<string>, i: nat, s: seq<Card>)
    requires OwnQueues(queues, repos) && Turn(queues, repos, i, |repos|, s)
    ensures Turn(queues, repos, i + 1, 0, s)
  {
  }
}
