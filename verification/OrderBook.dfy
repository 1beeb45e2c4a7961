/** The local order book of the exchange adapters: a book trimmed to its best levels, against the
    full book it stands for. */
module OrderBook {
  import opened Options
  import opened Sets

  datatype Side = Bid | Ask

  type Levels = map<real, real>

  /** A depth message: price and quantity pairs for both sides. */
  datatype Message = Message(bids: seq<(real, real)>, asks: seq<(real, real)>, id: int)

  datatype Book = Book(bids: Levels, asks: Levels, lastId: int) {
    function On(side: Side): Levels {
      if side == Bid then bids else asks
    }
  }

  predicate Better(side: Side, p: real, q: real) {
    if side == Bid then p > q else p < q
  }

  /** Level changes in order; quantity 0 or less removes the level. */
  function Apply(m: Levels, changes: seq<(real, real)>): Levels {
    if changes == [] then m
    else
      var before := Apply(m, changes[..|changes| - 1]);
      var (price, quantity) := changes[|changes| - 1];
      if quantity <= 0.0 then before - {price} else before[price := quantity]
  }

  /** How many of the changes take away a level that is there. */
  function Removals(m: Levels, changes: seq<(real, real)>): nat {
    if changes == [] then 0
    else
      var rest := changes[..|changes| - 1];
      var (price, quantity) := changes[|changes| - 1];
      Removals(m, rest) + if quantity <= 0.0 && price in Apply(m, rest) then 1 else 0
  }

  /** The prices better than p. */
  function Ahead(side: Side, m: Levels, p: real): set<real> {
    set q | q in m && Better(side, q, p)
  }

  /** The best `depth` levels. */
  function Top(side: Side, m: Levels, depth: nat): Levels {
    map p | p in m && |Ahead(side, m, p)| < depth :: m[p]
  }

  predicate Accepts(b: Book, m: Message) {
    m.id == 0 || m.id > b.lastId
  }

  function Updated(b: Book, m: Message, depth: nat): Book {
    if !Accepts(b, m) then b
    else Book(Top(Bid, Apply(b.bids, m.bids), depth), Top(Ask, Apply(b.asks, m.asks), depth), m.id)
  }

  /** The same message on a book that is never trimmed. */
  function UpdatedFull(b: Book, m: Message): Book {
    if !Accepts(b, m) then b else Book(Apply(b.bids, m.bids), Apply(b.asks, m.asks), m.id)
  }

  const EMPTY := Book(map[], map[], 0)

  function Run(ms: seq<Message>, depth: nat): Book {
    if ms == [] then EMPTY else Updated(Run(ms[..|ms| - 1], depth), ms[|ms| - 1], depth)
  }

  function RunFull(ms: seq<Message>): Book {
    if ms == [] then EMPTY else UpdatedFull(RunFull(ms[..|ms| - 1]), ms[|ms| - 1])
  }

  function Changes(m: Message, side: Side): seq<(real, real)> {
    if side == Bid then m.bids else m.asks
  }

  /** The levels that the trimmed book has lost to removals over a run. */
  function RunRemovals(ms: seq<Message>, depth: nat, side: Side): nat {
    if ms == [] then 0
    else
      var before, m := Run(ms[..|ms| - 1], depth), ms[|ms| - 1];
      RunRemovals(ms[..|ms| - 1], depth, side)
      + if Accepts(before, m) then Removals(before.On(side), Changes(m, side)) else 0
  }

  /** `local` is part of `full`, with the same quantities, and has all of its best k levels. */
  ghost predicate Agree(side: Side, k: int, full: Levels, local: Levels) {
    && (forall p :: p in local ==> p in full && local[p] == full[p])
    && (forall p {:trigger Ahead(side, full, p)} :: p in full && |Ahead(side, full, p)| < k ==> p in local)
  }

  lemma AgreeSet(side: Side, k: int, full: Levels, local: Levels, price: real, quantity: real)
    requires Agree(side, k, full, local)
    ensures Agree(side, k, full[price := quantity], local[price := quantity])
  {
    var full' := full[price := quantity];
    forall p | p in full' && |Ahead(side, full', p)| < k
      ensures p in local[price := quantity]
    {
      SubsetSize(Ahead(side, full, p), Ahead(side, full', p));
    }
  }

  lemma AgreeRemove(side: Side, k: int, full: Levels, local: Levels, price: real)
    requires Agree(side, k, full, local)
    ensures Agree(side, if price in local then k - 1 else k, full - {price}, local - {price})
  {
    var full' := full - {price};
    forall p | p in full' && |Ahead(side, full', p)| < (if price in local then k - 1 else k)
      ensures p in local - {price}
    {
      assert Ahead(side, full, p) - {price} == Ahead(side, full', p);
      if price !in local && price in full && Better(side, price, p) {
        assert Ahead(side, full, price) <= Ahead(side, full', p);
        SubsetSize(Ahead(side, full, price), Ahead(side, full', p));
      }
    }
  }

  lemma {:induction false} AgreeApply(side: Side, k: int, full: Levels, local: Levels, changes: seq<(real, real)>)
    requires Agree(side, k, full, local)
    ensures Agree(side, k - Removals(local, changes), Apply(full, changes), Apply(local, changes))
  {
    if changes != [] {
      var rest := changes[..|changes| - 1];
      var (price, quantity) := changes[|changes| - 1];
      AgreeApply(side, k, full, local, rest);
      var k' := k - Removals(local, rest);
      if quantity <= 0.0 {
        AgreeRemove(side, k', Apply(full, rest), Apply(local, rest), price);
      } else {
        AgreeSet(side, k', Apply(full, rest), Apply(local, rest), price, quantity);
      }
    }
  }

  lemma AgreeTop(side: Side, k: int, full: Levels, local: Levels, depth: nat)
    requires Agree(side, k, full, local) && k <= depth
    ensures Agree(side, k, full, Top(side, local, depth))
  {
    forall p | p in full && |Ahead(side, full, p)| < k
      ensures p in Top(side, local, depth)
    {
      SubsetSize(Ahead(side, local, p), Ahead(side, full, p));
    }
  }

  /** After any run, the trimmed book agrees with the full one on its best depth - d levels, where d
      counts the removals that the trimmed book has seen on that side. */
  lemma {:induction false} RunAgrees(ms: seq<Message>, depth: nat, side: Side)
    ensures Run(ms, depth).lastId == RunFull(ms).lastId
    ensures Agree(side, depth - RunRemovals(ms, depth, side), RunFull(ms).On(side), Run(ms, depth).On(side))
  {
    if ms != [] {
      var rest, m := ms[..|ms| - 1], ms[|ms| - 1];
      RunAgrees(rest, depth, side);
      var b, f := Run(rest, depth), RunFull(rest);
      if Accepts(b, m) {
        var k := depth - RunRemovals(rest, depth, side);
        AgreeApply(side, k, f.On(side), b.On(side), Changes(m, side));
        AgreeTop(side, k - Removals(b.On(side), Changes(m, side)), Apply(f.On(side), Changes(m, side)),
                 Apply(b.On(side), Changes(m, side)), depth);
      }
    }
  }

  /** The best price of a side, if it has one. */
  ghost predicate IsBest(side: Side, m: Levels, best: Option<real>) {
    match best
    case None => m.Keys == {}
    case Some(p) => p in m && Ahead(side, m, p) == {}
  }

  lemma BestExists(side: Side, prices: set<real>)
    requires |prices| > 0
    ensures exists p :: p in prices && forall q :: q in prices ==> !Better(side, q, p)
  {
    var p := SomeElement(prices);
    var rest := prices - {p};
    if rest == {} {
      forall q | q in prices
        ensures q == p
      {
        assert q != p ==> q in rest;
      }
    } else {
      BestExists(side, rest);
      var r :| r in rest && forall q :: q in rest ==> !Better(side, q, r);
      var best := if Better(side, p, r) then p else r;
      assert forall q :: q in prices ==> q == p || q in rest;
      assert best in prices && forall q :: q in prices ==> !Better(side, q, best);
    }
  }

  /** While fewer than `depth` levels have been removed on a side, its best price is that of the full book. */
  lemma BestPriceIsExact(ms: seq<Message>, depth: nat, side: Side, best: Option<real>)
    requires RunRemovals(ms, depth, side) < depth
    ensures IsBest(side, Run(ms, depth).On(side), best) <==> IsBest(side, RunFull(ms).On(side), best)
  {
    RunAgrees(ms, depth, side);
    AgreeOnBest(side, depth - RunRemovals(ms, depth, side), RunFull(ms).On(side), Run(ms, depth).On(side), best);
  }

  lemma AgreeOnBest(side: Side, k: int, full: Levels, local: Levels, best: Option<real>)
    requires k > 0 && Agree(side, k, full, local)
    ensures IsBest(side, local, best) <==> IsBest(side, full, best)
  {
    assert forall p :: p in local.Keys ==> p in full.Keys;
    assert local.Keys <= full.Keys;
    if |full.Keys| > 0 {
      BestExists(side, full.Keys);
      var p :| p in full.Keys && forall q :: q in full.Keys ==> !Better(side, q, p);
      assert Ahead(side, full, p) == {};
      assert p in local && Ahead(side, local, p) == {};
      match best
      case None =>
      case Some(r) =>
        assert r in full && r != p ==> p in Ahead(side, full, r);
        assert r in local && r != p ==> p in Ahead(side, local, r);
    }
  }

  ghost predicate IsSorted(side: Side, prices: seq<real>) {
    forall i, j :: 0 <= i < j < |prices| ==> Better(side, prices[i], prices[j])
  }

  lemma {:induction false} DistinctSize(side: Side, prices: seq<real>)
    requires IsSorted(side, prices)
    ensures |set p | p in prices| == |prices|
  {
    if prices != [] {
      var rest, last := prices[..|prices| - 1], prices[|prices| - 1];
      DistinctSize(side, rest);
      assert (set p | p in prices) == (set p | p in rest) + {last};
    }
  }

  /** In a sorted list of all prices, the index is the number of better prices. */
  lemma SortedRank(side: Side, m: Levels, prices: seq<real>, i: nat)
    requires IsSorted(side, prices) && m.Keys == (set p | p in prices) && i < |prices|
    ensures |Ahead(side, m, prices[i])| == i
  {
    DistinctSize(side, prices[..i]);
    assert Ahead(side, m, prices[i]) == (set p | p in prices[..i]) by {
      forall q | q in Ahead(side, m, prices[i])
        ensures q in prices[..i]
      {
        var j :| 0 <= j < |prices| && prices[j] == q;
        assert i < j ==> Better(side, prices[i], prices[j]);
        assert prices[..i][j] == q;
      }
      forall q | q in prices[..i]
        ensures q in Ahead(side, m, prices[i])
      {
        var j :| 0 <= j < i && prices[j] == q;
        assert q in prices;
      }
    }
  }

  lemma SortedPrefix(side: Side, prices: seq<real>, i: nat, n: nat)
    requires IsSorted(side, prices) && i < |prices| && n <= |prices|
    ensures prices[i] in prices[..n] <==> i < n
  {
    if i < n {
      assert prices[..n][i] == prices[i];
    } else {
      assert forall j :: 0 <= j < n ==> Better(side, prices[..n][j], prices[i]);
    }
  }

  /** Keeping the first levels of the sorted book is keeping its best levels. */
  lemma PrefixIsTop(side: Side, m: Levels, prices: seq<real>, depth: nat)
    requires IsSorted(side, prices) && m.Keys == (set p | p in prices)
    ensures Top(side, m, depth) == map p | p in prices[..if depth < |prices| then depth else |prices|] && p in m :: m[p]
    ensures |Top(side, m, depth)| == if depth < |prices| then depth else |prices|
  {
    var n := if depth < |prices| then depth else |prices|;
    forall p | p in m
      ensures |Ahead(side, m, p)| < depth <==> p in prices[..n]
    {
      var i :| 0 <= i < |prices| && prices[i] == p;
      SortedRank(side, m, prices, i);
      SortedPrefix(side, prices, i, n);
    }
    DistinctSize(side, prices[..n]);
    KeysOfTop(side, m, prices[..n], depth);
  }

  lemma KeysOfTop(side: Side, m: Levels, prices: seq<real>, depth: nat)
    requires forall p :: p in m ==> (|Ahead(side, m, p)| < depth <==> p in prices)
    requires forall p :: p in prices ==> p in m
    ensures Top(side, m, depth) == map p | p in prices && p in m :: m[p]
    ensures |Top(side, m, depth)| == |set p | p in prices|
  {
    forall p
      ensures p in Top(side, m, depth).Keys <==> p in (set p | p in prices)
    {
    }
    assert Top(side, m, depth).Keys == (set p | p in prices);
  }

  /** Part of a side sorted: the prices so far come before all others. */
  ghost predicate Sorting(side: Side, all: set<real>, prices: seq<real>, rest: set<real>) {
    && IsSorted(side, prices) && rest !! (set p | p in prices)
    && all == rest + (set p | p in prices)
    && forall p, q :: p in prices && q in rest ==> Better(side, p, q)
  }

  lemma SortingStarts(side: Side, all: set<real>)
    ensures Sorting(side, all, [], all)
  {
  }

  lemma SortedAppend(side: Side, prices: seq<real>, rest: set<real>, best: real)
    requires IsSorted(side, prices) && rest !! (set p | p in prices)
    requires forall p, q :: p in prices && q in rest ==> Better(side, p, q)
    requires best in rest && forall q :: q in rest ==> !Better(side, q, best)
    ensures IsSorted(side, prices + [best])
    ensures (set p | p in prices + [best]) == (set p | p in prices) + {best}
    ensures forall p, q :: p in prices + [best] && q in rest - {best} ==> Better(side, p, q)
  {
  }

  lemma SortingNext(side: Side, all: set<real>, prices: seq<real>, rest: set<real>, best: real)
    requires Sorting(side, all, prices, rest)
    requires best in rest && forall q :: q in rest ==> !Better(side, q, best)
    ensures Sorting(side, all, prices + [best], rest - {best})
  {
    SortedAppend(side, prices, rest, best);
  }

  lemma SortingEnds(side: Side, all: set<real>, prices: seq<real>)
    requires Sorting(side, all, prices, {})
    ensures IsSorted(side, prices) && all == (set p | p in prices) && |prices| == |all|
  {
    DistinctSize(side, prices);
  }

  /** The prices of a side, best first. */
  method Sort(side: Side, m: Levels) returns (prices: seq<real>)
    ensures IsSorted(side, prices) && m.Keys == (set p | p in prices) && |prices| == |m|
  {
    hide Sorting, IsSorted;
    prices := [];
    var rest := m.Keys;
    SortingStarts(side, m.Keys);
    while rest != {}
      invariant Sorting(side, m.Keys, prices, rest)
      decreases |rest|
    {
      BestExists(side, rest);
      var best :| best in rest && forall q :: q in rest ==> !Better(side, q, best);
      SortingNext(side, m.Keys, prices, rest, best);
      prices, rest := prices + [best], rest - {best};
    }
    SortingEnds(side, m.Keys, prices);
  }

  function Pairs(prices: seq<real>, quantity: real): seq<(real, real)> {
    seq(|prices|, i requires 0 <= i < |prices| => (prices[i], quantity))
  }

  lemma ApplyAppend(m: Levels, changes: seq<(real, real)>, price: real, quantity: real)
    ensures var after := Apply(m, changes + [(price, quantity)]);
            after == if quantity <= 0.0 then Apply(m, changes) - {price} else Apply(m, changes)[price := quantity]
    ensures Removals(m, changes + [(price, quantity)])
         == Removals(m, changes) + if quantity <= 0.0 && price in Apply(m, changes) then 1 else 0
  {
    assert (changes + [(price, quantity)])[..|changes + [(price, quantity)]| - 1] == changes;
  }

  lemma PairsAppend(prices: seq<real>, quantity: real)
    requires prices != []
    ensures var n := |prices| - 1;
            Pairs(prices, quantity) == Pairs(prices[..n], quantity) + [(prices[n], quantity)]
  {
  }

  function Filled(prices: seq<real>, quantity: real): Levels {
    map p | p in prices :: quantity
  }

  lemma FilledAppend(m: Levels, prices: seq<real>, last: real, quantity: real)
    ensures m + Filled(prices + [last], quantity) == (m + Filled(prices, quantity))[last := quantity]
  {
  }

  lemma RemovedAppend(m: Levels, prices: seq<real>, last: real)
    ensures m - (set p | p in prices + [last]) == m - (set p | p in prices) - {last}
  {
  }

  lemma {:induction false} ApplyPairs(m: Levels, prices: seq<real>, quantity: real)
    ensures quantity > 0.0 ==> Apply(m, Pairs(prices, quantity)) == m + Filled(prices, quantity)
    ensures quantity <= 0.0 ==> Apply(m, Pairs(prices, quantity)) == m - (set p | p in prices)
  {
    if prices != [] {
      hide Apply, Pairs, Removals, Filled;
      var rest, last := prices[..|prices| - 1], prices[|prices| - 1];
      ApplyPairs(m, rest, quantity);
      PairsAppend(prices, quantity);
      ApplyAppend(m, Pairs(rest, quantity), last, quantity);
      assert prices == rest + [last];
      FilledAppend(m, rest, last, quantity);
      RemovedAppend(m, rest, last);
    }
  }

  lemma {:induction false} RemovalsOfPairs(m: Levels, side: Side, prices: seq<real>)
    requires IsSorted(side, prices) && forall p :: p in prices ==> p in m
    ensures Removals(m, Pairs(prices, 0.0)) == |prices|
  {
    if prices != [] {
      var rest, last := prices[..|prices| - 1], prices[|prices| - 1];
      RemovalsOfPairs(m, side, rest);
      ApplyPairs(m, rest, 0.0);
      assert Pairs(prices, 0.0)[..|prices| - 1] == Pairs(rest, 0.0);
      SortedPrefix(side, prices, |prices| - 1, |prices| - 1);
    }
  }

  function OneSided(side: Side, changes: seq<(real, real)>): Message {
    if side == Bid then Message(changes, [], 0) else Message([], changes, 0)
  }

  function Ladder(side: Side, n: nat): seq<real> {
    seq(n, i => if side == Bid then (n - i) as real else (i + 1) as real)
  }

  lemma RunOneSided(ms: seq<Message>, depth: nat, side: Side, changes: seq<(real, real)>)
    ensures Run(ms + [OneSided(side, changes)], depth).On(side)
         == Top(side, Apply(Run(ms, depth).On(side), changes), depth)
    ensures RunFull(ms + [OneSided(side, changes)]).On(side) == Apply(RunFull(ms).On(side), changes)
    ensures RunRemovals(ms + [OneSided(side, changes)], depth, side)
         == RunRemovals(ms, depth, side) + Removals(Run(ms, depth).On(side), changes)
  {
    var all := ms + [OneSided(side, changes)];
    assert all[..|all| - 1] == ms;
  }

  /** The best prices of a book that holds just these prices. */
  lemma TopOfPairs(side: Side, prices: seq<real>, depth: nat)
    requires IsSorted(side, prices) && depth <= |prices|
    ensures Top(side, Apply(map[], Pairs(prices, 1.0)), depth).Keys == (set p | p in prices[..depth])
  {
    ApplyPairs(map[], prices, 1.0);
    PrefixIsTop(side, Apply(map[], Pairs(prices, 1.0)), prices, depth);
    assert forall p :: p in prices[..depth] ==> p in prices;
  }

  /** A level set and removed again, n times. */
  function Churn(n: nat): seq<(real, real)> {
    if n == 0 then [] else Churn(n - 1) + [(1.0, 1.0)] + [(1.0, 0.0)]
  }

  lemma {:induction false} ChurnLeavesNothing(n: nat)
    ensures Apply(map[], Churn(n)) == map[] && Removals(map[], Churn(n)) == n
  {
    if n > 0 {
      ChurnLeavesNothing(n - 1);
      ApplyAppend(map[], Churn(n - 1), 1.0, 1.0);
      ApplyAppend(map[], Churn(n - 1) + [(1.0, 1.0)], 1.0, 0.0);
    }
  }

  lemma ChurnedBook(n: nat, depth: nat, side: Side)
    ensures var ms := [OneSided(side, Churn(n))];
            Run(ms, depth).On(side) == RunFull(ms).On(side) == map[] && RunRemovals(ms, depth, side) == n
  {
    RunOneSided([], depth, side, Churn(n));
    assert [] + [OneSided(side, Churn(n))] == [OneSided(side, Churn(n))];
    ChurnLeavesNothing(n);
  }

  /** The bound is sharp: for every depth, that many removals or any number above can leave the trimmed side empty
      while the full book still has a level. */
  lemma RemovalsCanEmptyTheBook(depth: nat, d: nat, side: Side) returns (ms: seq<Message>)
    requires d >= depth
    ensures RunRemovals(ms, depth, side) == d
    ensures Run(ms, depth).On(side) == map[] && RunFull(ms).On(side) != map[]
  {
    var prices := Ladder(side, depth + 1);
    var inserts, removes := Pairs(prices, 1.0), Pairs(prices[..depth], 0.0);
    var before := [OneSided(side, Churn(d - depth))];
    ChurnedBook(d - depth, depth, side);
    RunOneSided(before, depth, side, inserts);
    RunOneSided(before + [OneSided(side, inserts)], depth, side, removes);
    ms := before + [OneSided(side, inserts)] + [OneSided(side, removes)];
    NoRemovals(map[], prices);
    LadderRemoved(depth, side);
  }

  /** Taking all trimmed levels of a ladder away leaves the last one in the full book only. */
  lemma LadderRemoved(depth: nat, side: Side)
    ensures var prices := Ladder(side, depth + 1);
            var full, removes := Apply(map[], Pairs(prices, 1.0)), Pairs(prices[..depth], 0.0);
            && Apply(Top(side, full, depth), removes) == map[] && Apply(full, removes) != map[]
            && Removals(Top(side, full, depth), removes) == depth
  {
    var prices := Ladder(side, depth + 1);
    var top := prices[..depth];
    TopOfPairs(side, prices, depth);
    var full := Apply(map[], Pairs(prices, 1.0));
    var local := Top(side, full, depth);
    RemovalsOfPairs(local, side, top);
    ApplyPairs(local, top, 0.0);
    assert Apply(local, Pairs(top, 0.0)).Keys == {};
    ApplyPairs(full, top, 0.0);
    ApplyPairs(map[], prices, 1.0);
    SortedPrefix(side, prices, depth, depth);
    assert prices[depth] in Apply(full, Pairs(top, 0.0));
  }

  /** In every run with d removals, the best price is that of the full book. */
  ghost predicate BestIsExactAfter(d: nat, depth: nat, side: Side) {
    forall ms, best {:trigger RunRemovals(ms, depth, side), IsBest(side, RunFull(ms).On(side), best)} ::
      RunRemovals(ms, depth, side) == d ==>
      (IsBest(side, Run(ms, depth).On(side), best) <==> IsBest(side, RunFull(ms).On(side), best))
  }

  /** Exactly while fewer than `depth` levels have been removed can the best price be relied on. */
  lemma WhenBestIsExact(d: nat, depth: nat, side: Side)
    ensures BestIsExactAfter(d, depth, side) <==> d < depth
  {
    hide Run, RunFull, RunRemovals;
    if d < depth {
      forall ms, best {:trigger RunRemovals(ms, depth, side), IsBest(side, RunFull(ms).On(side), best)}
        | RunRemovals(ms, depth, side) == d
        ensures IsBest(side, Run(ms, depth).On(side), best) <==> IsBest(side, RunFull(ms).On(side), best)
      {
        BestPriceIsExact(ms, depth, side, best);
      }
    } else {
      var ms := RemovalsCanEmptyTheBook(depth, d, side);
      var full := RunFull(ms).On(side);
      assert IsBest(side, Run(ms, depth).On(side), None);
      assert !IsBest(side, full, None);
    }
  }

  lemma {:induction false} NoRemovals(m: Levels, prices: seq<real>)
    ensures Removals(m, Pairs(prices, 1.0)) == 0
  {
    if prices != [] {
      NoRemovals(m, prices[..|prices| - 1]);
      assert Pairs(prices, 1.0)[..|prices| - 1] == Pairs(prices[..|prices| - 1], 1.0);
    }
  }

  /** The highest id since the last message without one. */
  function HighestId(ms: seq<Message>): int {
    if ms == [] || ms[|ms| - 1].id == 0 then 0
    else
      var before := HighestId(ms[..|ms| - 1]);
      if ms[|ms| - 1].id > before then ms[|ms| - 1].id else before
  }

  /** A message delivered again is ignored exactly when no lower id has taken its place, so always if every
      message since carries an id. */
  lemma {:induction false} RedeliveryIgnored(ms: seq<Message>, m: Message, later: seq<Message>, depth: nat)
    requires m.id > 0
    ensures !Accepts(Run(ms + [m] + later, depth), m) <==> m.id <= HighestId(ms + [m] + later)
    ensures (forall u :: u in later ==> u.id != 0) ==> !Accepts(Run(ms + [m] + later, depth), m)
  {
    LastIdIsHighest(ms + [m] + later, depth);
    if later == [] {
      assert ms + [m] + later == ms + [m];
    } else {
      var rest := later[..|later| - 1];
      RedeliveryIgnored(ms, m, rest, depth);
      LastIdIsHighest(ms + [m] + rest, depth);
      assert (ms + [m] + later)[..|ms + [m] + later| - 1] == ms + [m] + rest;
      assert forall u :: u in rest ==> u in later;
    }
  }

  /** The last quantity that a list of changes gives a price. */
  function LastChange(changes: seq<(real, real)>, price: real): Option<real> {
    if changes == [] then None
    else
      var last := changes[|changes| - 1];
      if last.0 == price then Some(last.1) else LastChange(changes[..|changes| - 1], price)
  }

  /** The changes to a side by all messages that came without an id or with one above the highest so far. */
  function AllChanges(ms: seq<Message>, side: Side): seq<(real, real)> {
    if ms == [] then []
    else
      var rest, m := ms[..|ms| - 1], ms[|ms| - 1];
      AllChanges(rest, side) + if m.id == 0 || m.id > HighestId(rest) then Changes(m, side) else []
  }

  /** The book holds a price with a quantity. */
  ghost predicate HoldsLevel(m: Levels, price: real, quantity: real) {
    price in m && m[price] == quantity
  }

  lemma {:induction false} ApplyIsLastChange(m: Levels, changes: seq<(real, real)>, price: real, quantity: real)
    ensures HoldsLevel(Apply(m, changes), price, quantity) <==>
      match LastChange(changes, price)
      case None => HoldsLevel(m, price, quantity)
      case Some(q) => q > 0.0 && q == quantity
  {
    if changes != [] {
      ApplyIsLastChange(m, changes[..|changes| - 1], price, quantity);
    }
  }

  lemma {:induction false} LastOfConcat(a: seq<(real, real)>, b: seq<(real, real)>, price: real)
    ensures LastChange(a + b, price)
         == if LastChange(b, price).Some? then LastChange(b, price) else LastChange(a, price)
  {
    if b == [] {
      assert a + b == a;
    } else {
      LastOfConcat(a, b[..|b| - 1], price);
      assert (a + b)[..|a + b| - 1] == a + b[..|b| - 1];
    }
  }

  /** After any run the full book holds a level exactly if the last accepted change to its price set that quantity. */
  lemma {:induction false} FullBookIsLastChanges(ms: seq<Message>, side: Side, price: real, quantity: real)
    ensures HoldsLevel(RunFull(ms).On(side), price, quantity) <==>
      LastChange(AllChanges(ms, side), price) == Some(quantity) && quantity > 0.0
  {
    if ms != [] {
      var rest, m := ms[..|ms| - 1], ms[|ms| - 1];
      FullBookIsLastChanges(rest, side, price, quantity);
      RunAgrees(rest, 0, side);
      LastIdIsHighest(rest, 0);
      hide HoldsLevel, Apply, LastChange;
      assert AllChanges(rest, side) + [] == AllChanges(rest, side);
      if Accepts(RunFull(rest), m) {
        ApplyIsLastChange(RunFull(rest).On(side), Changes(m, side), price, quantity);
        LastOfConcat(AllChanges(rest, side), Changes(m, side), price);
      }
    } else {
      assert LastChange(AllChanges(ms, side), price) == None && !HoldsLevel(RunFull(ms).On(side), price, quantity);
    }
  }

  lemma SortedPrices(side: Side, all: set<real>) returns (prices: seq<real>)
    ensures Sorting(side, all, prices, {})
  {
    prices := [];
    var rest := all;
    SortingStarts(side, all);
    while rest != {}
      invariant Sorting(side, all, prices, rest)
      decreases |rest|
    {
      hide Sorting, IsSorted;
      BestExists(side, rest);
      var best :| best in rest && forall q :: q in rest ==> !Better(side, q, best);
      SortingNext(side, all, prices, rest, best);
      prices, rest := prices + [best], rest - {best};
    }
  }

  /** A side is never deeper than `depth`, and no level is dropped before it would be. */
  lemma SizeOfTop(side: Side, m: Levels, depth: nat)
    ensures |Top(side, m, depth)| == if |m| < depth then |m| else depth
    ensures |m| <= depth ==> Top(side, m, depth) == m
  {
    var prices := SortedPrices(side, m.Keys);
    SortingEnds(side, m.Keys, prices);
    PrefixIsTop(side, m, prices, depth);
    hide Top;
    if |m| <= depth {
      assert prices[..|prices|] == prices;
      assert (map p | p in prices && p in m :: m[p]) == m;
    }
  }

  /** An ignored message changes neither book, and its removals do not count. */
  lemma IgnoredMessage(ms: seq<Message>, m: Message, depth: nat, side: Side)
    requires m.id != 0 && m.id <= HighestId(ms)
    ensures Run(ms + [m], depth) == Run(ms, depth) && RunFull(ms + [m]) == RunFull(ms)
    ensures RunRemovals(ms + [m], depth, side) == RunRemovals(ms, depth, side)
  {
    assert (ms + [m])[..|ms + [m]| - 1] == ms;
    LastIdIsHighest(ms, depth);
    RunAgrees(ms, depth, side);
  }

  /** A message without an id reopens the book to every earlier message. */
  lemma ResetAcceptsAgain(ms: seq<Message>, u: Message, m: Message, depth: nat)
    requires m.id > 0 && u.id == 0
    ensures Accepts(Run(ms + [u], depth), m)
  {
    LastIdIsHighest(ms + [u], depth);
  }

  lemma {:induction false} LastIdIsHighest(ms: seq<Message>, depth: nat)
    ensures Run(ms, depth).lastId == HighestId(ms) >= 0
  {
    if ms != [] {
      LastIdIsHighest(ms[..|ms| - 1], depth);
    }
  }

  class LocalOrderBook {
    const maxDepth: nat
    var bids: Levels
    var asks: Levels
    var lastUpdateId: int

    function View(): Book
      reads this
    {
      Book(bids, asks, lastUpdateId)
    }

    constructor (maxDepth: nat)
      ensures View() == EMPTY && this.maxDepth == maxDepth
    {
      this.maxDepth := maxDepth;
      bids, asks, lastUpdateId := map[], map[], 0;
    }

    static method Changed(m: Levels, changes: seq<(real, real)>) returns (levels: Levels)
      ensures levels == Apply(m, changes)
    {
      levels := m;
      for i := 0 to |changes|
        invariant levels == Apply(m, changes[..i])
      {
        assert changes[..i + 1][..i] == changes[..i];
        var (price, quantity) := changes[i];
        if quantity <= 0.0 {
          levels := levels - {price};
        } else {
          levels := levels[price := quantity];
        }
      }
      assert changes[..|changes|] == changes;
    }

    method Update(bidChanges: seq<(real, real)>, askChanges: seq<(real, real)>, updateId: int := 0)
      modifies this
      ensures View() == Updated(old(View()), Message(bidChanges, askChanges, updateId), maxDepth)
    {
      if updateId <= lastUpdateId && updateId != 0 {
        return;
      }
      bids := Changed(bids, bidChanges);
      asks := Changed(asks, askChanges);
      lastUpdateId := updateId;
      TrimDepth();
    }

    method TrimDepth()
      modifies `bids, `asks
      ensures bids == Top(Bid, old(bids), maxDepth) && asks == Top(Ask, old(asks), maxDepth)
    {
      bids := Trimmed(Bid, bids);
      asks := Trimmed(Ask, asks);
    }

    method Trimmed(side: Side, m: Levels) returns (levels: Levels)
      ensures levels == Top(side, m, maxDepth)
    {
      hide Top, IsSorted;
      levels := m;
      var prices := Sort(side, m);
      PrefixIsTop(side, m, prices, maxDepth);
      if |m| > maxDepth {
        levels := map p | p in prices[..maxDepth] && p in m :: m[p];
      } else {
        assert prices[..|prices|] == prices;
      }
    }

    method GetBest(side: Side) returns (best: Option<real>)
      ensures IsBest(side, View().On(side), best)
      ensures best == None <==> |View().On(side)| == 0
      ensures best.Some? && side == Bid ==> best.value in bids && forall p :: p in bids ==> p <= best.value
      ensures best.Some? && side == Ask ==> best.value in asks && forall p :: p in asks ==> p >= best.value
    {
      var m := if side == Bid then bids else asks;
      if m.Keys == {} {
        best := None;
      } else {
        BestExists(side, m.Keys);
        var p :| p in m.Keys && forall q :: q in m.Keys ==> !Better(side, q, p);
        best := Some(p);
      }
    }

    /** The lists of the snapshot: every level, best first. */
    method Snapshot(side: Side) returns (levels: seq<(real, real)>)
      ensures IsSorted(side, seq(|levels|, i requires 0 <= i < |levels| => levels[i].0))
      ensures forall p, q :: (p, q) in levels <==> p in View().On(side) && View().On(side)[p] == q
    {
      var m := if side == Bid then bids else asks;
      var prices := Sort(side, m);
      assert forall i :: 0 <= i < |prices| ==> prices[i] in m.Keys;
      levels := seq(|prices|, i requires 0 <= i < |prices| => (prices[i], m[prices[i]]));
      assert forall p :: p in m ==> p in prices;
      forall p, q | p in m && m[p] == q
        ensures (p, q) in levels
      {
        var i :| 0 <= i < |prices| && prices[i] == p;
        assert levels[i] == (p, q);
      }
    }
  }
}
