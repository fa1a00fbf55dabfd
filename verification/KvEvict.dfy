/** The byte budget of the checkpoint cache: the size check, and the choice of what to delete
    (ds4_kvstore_file_size_fits and ds4_kvstore_evict in ds4_kvstore.c). */
module KvEvict {

  /** A readable cache file.  `position` is its place in the directory listing, and `score` its
      eviction score, which is the same throughout one pass. */
  datatype Item = Item(name: nat, size: nat, score: real, lastUsed: nat, position: nat)

  const FIXED := 52
  const U64_MAX: nat := 0xFFFF_FFFF_FFFF_FFFF

  // ------------------------------------------------------------------------------
  // The order of deletion
  // ------------------------------------------------------------------------------

  /** Deleted strictly before, as far as the two keys tell. */
  predicate Cheaper(a: Item, b: Item) {
    a.score < b.score || (a.score == b.score && a.lastUsed < b.lastUsed)
  }

  /** Deleted before: by score, then by last use, then by place in the listing. */
  predicate Before(a: Item, b: Item) {
    Cheaper(a, b) || (!Cheaper(b, a) && a.position < b.position)
  }

  ghost predicate Listed(items: seq<Item>) {
    forall i, j | 0 <= i < j < |items| :: items[i].position < items[j].position && items[i].name != items[j].name
  }

  ghost predicate Sorted(items: seq<Item>) {
    forall i, j | 0 <= i < j < |items| :: Before(items[i], items[j])
  }

  function Sum(items: seq<Item>): nat {
    if items == [] then 0 else items[0].size + Sum(items[1..])
  }

  ghost predicate IsVictim(items: seq<Item>, v: nat) {
    v < |items| && forall i | 0 <= i < |items| && i != v :: Before(items[v], items[i])
  }

  function Without(items: seq<Item>, i: nat): seq<Item>
    requires i < |items|
  {
    items[..i] + items[i + 1..]
  }

  /** A sorted arrangement of the same items. */
  ghost predicate IsOrder(order: seq<Item>, items: seq<Item>) {
    Sorted(order) && multiset(order) == multiset(items)
  }

  /** How many have to go, cheapest first, until the rest fits. */
  function Cut(order: seq<Item>, target: nat): (k: nat)
    ensures k <= |order|
  {
    if order == [] || Sum(order) <= target then 0 else 1 + Cut(order[1..], target)
  }

  /** The shortest prefix whose removal makes the rest fit. */
  lemma {:induction false} CutIsShortest(order: seq<Item>, target: nat)
    ensures Sum(order[Cut(order, target)..]) <= target
    ensures forall j | 0 <= j < Cut(order, target) :: target < Sum(order[j..])
    decreases order
  {
    if order != [] && target < Sum(order) {
      CutIsShortest(order[1..], target);
      var k := Cut(order[1..], target);
      assert order[1..][k..] == order[1 + k..];
      forall j | 0 <= j < 1 + k ensures target < Sum(order[j..]) {
        if 0 < j {
          assert order[1..][j - 1..] == order[j..];
        } else {
          assert order[0..] == order;
        }
      }
    }
  }

  lemma {:induction false} SumWithout(items: seq<Item>, i: nat)
    requires i < |items|
    ensures Sum(items) == items[i].size + Sum(Without(items, i))
  {
    if i == 0 {
      assert Without(items, 0) == items[1..];
    } else {
      SumWithout(items[1..], i - 1);
      assert Without(items, i) == [items[0]] + Without(items[1..], i - 1);
    }
  }

  lemma MultisetWithout(items: seq<Item>, i: nat)
    requires i < |items|
    ensures multiset(items) == multiset{items[i]} + multiset(Without(items, i))
    ensures Listed(items) ==> Listed(Without(items, i))
  {
    assert items == items[..i] + [items[i]] + items[i + 1..];
  }

  /** Taking the same item out of two arrangements of the same items. */
  lemma SameRest(order: seq<Item>, items: seq<Item>, i: nat)
    requires multiset(order) == multiset(items) && i < |items| && order != [] && order[0] == items[i]
    ensures multiset(order[1..]) == multiset(Without(items, i))
  {
    MultisetWithout(items, i);
    assert order == [order[0]] + order[1..];
    assert multiset(order[1..]) == multiset(order) - multiset{order[0]};
    assert multiset(Without(items, i)) == multiset(items) - multiset{items[i]};
  }

  lemma {:induction false} SumOfOrder(order: seq<Item>, items: seq<Item>)
    requires multiset(order) == multiset(items)
    ensures Sum(order) == Sum(items)
    decreases order
  {
    if order == [] {
      assert |multiset(items)| == |items|;
    } else {
      assert order[0] in multiset(order);
      var i :| 0 <= i < |items| && items[i] == order[0];
      SumWithout(items, i);
      SameRest(order, items, i);
      SumOfOrder(order[1..], Without(items, i));
    }
  }

  /** The victim comes first in any sorted arrangement, and the rest arranges the rest. */
  lemma VictimIsFirst(order: seq<Item>, items: seq<Item>, v: nat)
    requires IsOrder(order, items) && Listed(items) && IsVictim(items, v)
    ensures order != [] && order[0] == items[v] && IsOrder(order[1..], Without(items, v))
  {
    var w := items[v];
    assert w in multiset(items) && w in multiset(order);
    var k :| 0 <= k < |order| && order[k] == w;
    assert order[0] in multiset(order);
    var i :| 0 <= i < |items| && items[i] == order[0];
    NotBothWays(w, order[0]);
    FirstOrSame(order, k);
    VictimOrSame(items, v, i);
    SameRest(order, items, v);
  }

  lemma FirstOrSame(order: seq<Item>, k: nat)
    requires Sorted(order) && k < |order|
    ensures order[0] == order[k] || Before(order[0], order[k])
  {
  }

  lemma VictimOrSame(items: seq<Item>, v: nat, i: nat)
    requires IsVictim(items, v) && i < |items|
    ensures items[v] == items[i] || Before(items[v], items[i])
  {
  }

  lemma NotBothWays(a: Item, b: Item)
    ensures !(Before(a, b) && Before(b, a))
  {
  }

  // ------------------------------------------------------------------------------
  // Eviction
  // ------------------------------------------------------------------------------

  ghost function Names(items: seq<Item>): set<nat> {
    set i | i in items :: i.name
  }

  /** How many of the items due are really deleted: the pass ends at the first that cannot be. */
  function Deleted(due: seq<Item>, stuck: set<nat>): (n: nat)
    ensures n <= |due|
    ensures n < |due| ==> due[n].name in stuck
  {
    if due == [] || due[0].name in stuck then 0 else 1 + Deleted(due[1..], stuck)
  }

  class Store {
    const budget: nat
    var entries: seq<Item>
    var files: map<nat, nat>      // readable files of the directory, and their sizes

    constructor (budget: nat)
      ensures this.budget == budget && entries == [] && files == map[]
    {
      this.budget := budget;
      entries := [];
      files := map[];
    }

    /** The entry with the least score, the oldest use among those, the first among those. */
    method PickVictim() returns (victim: nat)
      requires entries != [] && Listed(entries)
      ensures IsVictim(entries, victim)
    {
      victim := 0;
      for i := 1 to |entries|
        invariant victim < i && forall j | 0 <= j < i && j != victim :: Before(entries[victim], entries[j])
      {
        if entries[i].score < entries[victim].score ||
           (entries[i].score == entries[victim].score && entries[i].lastUsed < entries[victim].lastUsed)
        {
          victim := i;
        }
      }
    }

    /** Delete files until `extra` more bytes fit the budget.  `listing` is what the directory
        holds, and `stuck` what cannot be deleted. */
    method Evict(extra: nat, listing: seq<Item>, stuck: set<nat>, ghost order: seq<Item>)
      requires Listed(listing) && IsOrder(order, listing)
      modifies this`entries, this`files
      ensures if budget == 0 || budget < extra then entries == old(entries) && files == old(files)
              else
                var k := Cut(order, budget - extra);
                var n := Deleted(order[..k], stuck);
                && files == old(files) - Names(order[..n])
                && multiset(entries) == multiset(order[if n < k then n + 1 else k..])
      ensures forall gone, kept | gone in listing && gone.name in old(files).Keys - files.Keys && kept in entries ::
                gone.score <= kept.score && (gone.score == kept.score ==> gone.lastUsed <= kept.lastUsed)
    {
      if budget == 0 || budget < extra {
        return;
      }
      entries := listing;
      var total := 0;
      assert listing[0..] == listing;
      for i := 0 to |entries|
        invariant entries == listing && files == old(files)
        invariant total + Sum(listing[i..]) == Sum(listing)
      {
        assert listing[i..][1..] == listing[i + 1..];
        total := total + entries[i].size;
      }
      assert listing[|entries|..] == [];
      SumOfOrder(order, listing);
      DeleteUntil(total, budget - extra, stuck, order);
      ghost var k := Cut(order, budget - extra);
      ghost var n := Deleted(order[..k], stuck);
      LeastGo(listing, order, n, if n < k then n + 1 else k, entries);
    }

    method DeleteUntil(sum: nat, target: nat, stuck: set<nat>, ghost order: seq<Item>)
      requires Listed(entries) && IsOrder(order, entries) && sum == Sum(order)
      modifies this`entries, this`files
      ensures var k := Cut(order, target);
              var n := Deleted(order[..k], stuck);
              && files == old(files) - Names(order[..n])
              && multiset(entries) == multiset(order[if n < k then n + 1 else k..])
    {
      hide Cut, Deleted, Names, Sum, IsVictim, IsOrder, Listed;
      var total := sum;
      ghost var k := Cut(order, target);
      ghost var n := 0;
      ghost var failed := false;
      NoneYet(order, k, stuck);
      while target < total && entries != []
        invariant n <= k && files == old(files) - Names(order[..n])
        invariant Listed(entries)
        invariant !failed ==> IsOrder(order[n..], entries) && total == Sum(order[n..])
        invariant !failed ==> Deleted(order[..k], stuck) == n + Deleted(order[n..k], stuck)
        invariant failed ==> total == 0 && n < k && n == Deleted(order[..k], stuck)
        invariant failed ==> multiset(entries) == multiset(order[n + 1..])
        decreases |entries|
      {
        StillDue(order, target, n);
        var victim := PickVictim();
        var e := entries[victim];
        VictimIsFirst(order[n..], entries, victim);
        NextDue(order, n, k, stuck);
        MultisetWithout(entries, victim);
        IsSame(order[n + 1..], Without(entries, victim));
        if e.name !in stuck {
          files := files - {e.name};
          total := if e.size <= total then total - e.size else 0;
          n := n + 1;
        } else {
          total := 0;
          failed := true;
        }
        entries := entries[..victim] + entries[victim + 1..];
      }
      if !failed {
        NothingDue(order, target, n, stuck, entries);
      }
    }
  }

  // ------------------------------------------------------------------------------
  // Steps of the eviction loop
  // ------------------------------------------------------------------------------

  lemma NoneYet(order: seq<Item>, k: nat, stuck: set<nat>)
    requires k <= |order|
    ensures order[0..] == order && order[..0] == [] && Names(order[..0]) == {} && order[0..k] == order[..k]
  {
  }

  /** Nothing goes that scores above anything that stays, nor equally with an older use. */
  lemma LeastGo(listing: seq<Item>, order: seq<Item>, n: nat, from: nat, entries: seq<Item>)
    requires Listed(listing) && IsOrder(order, listing) && n <= from <= |order|
    requires multiset(entries) == multiset(order[from..])
    ensures forall gone, kept | gone in listing && gone.name in Names(order[..n]) && kept in entries ::
              gone.score <= kept.score && (gone.score == kept.score ==> gone.lastUsed <= kept.lastUsed)
  {
    forall gone, kept | gone in listing && gone.name in Names(order[..n]) && kept in entries
      ensures gone.score <= kept.score && (gone.score == kept.score ==> gone.lastUsed <= kept.lastUsed)
    {
      assert kept in multiset(entries) && kept in multiset(order[from..]);
      var j :| from <= j < |order| && order[j] == kept;
      var same :| same in order[..n] && same.name == gone.name;
      assert same in multiset(order) && same in multiset(listing);
      var i :| 0 <= i < n && order[i] == same;
    }
  }

  lemma IsSame(order: seq<Item>, items: seq<Item>)
    ensures IsOrder(order, items) ==> multiset(items) == multiset(order)
  {
  }

  /** While the rest is too large, the next item is among those due. */
  lemma StillDue(order: seq<Item>, target: nat, n: nat)
    requires n <= Cut(order, target)
    ensures target < Sum(order[n..]) ==> n < Cut(order, target)
  {
    CutIsShortest(order, target);
  }

  lemma NextDue(order: seq<Item>, n: nat, k: nat, stuck: set<nat>)
    requires n < k <= |order|
    ensures order[n..][1..] == order[n + 1..] && order[n..][0] == order[n]
    ensures Names(order[..n + 1]) == Names(order[..n]) + {order[n].name}
    ensures Sum(order[n..]) == order[n].size + Sum(order[n + 1..])
    ensures Deleted(order[n..k], stuck) == if order[n].name in stuck then 0 else 1 + Deleted(order[n + 1..k], stuck)
  {
    assert order[..n + 1] == order[..n] + [order[n]];
    assert order[n..k][1..] == order[n + 1..k];
    forall x ensures x in Names(order[..n + 1]) <==> x in Names(order[..n]) + {order[n].name} {
      if x in Names(order[..n]) {
        var i :| i in order[..n] && i.name == x;
        assert i in order[..n + 1];
      }
      if x == order[n].name {
        assert order[n] in order[..n + 1];
      }
    }
  }

  lemma NothingDue(order: seq<Item>, target: nat, n: nat, stuck: set<nat>, entries: seq<Item>)
    requires n <= Cut(order, target) && IsOrder(order[n..], entries)
    requires Sum(order[n..]) <= target || entries == []
    requires Deleted(order[..Cut(order, target)], stuck) == n + Deleted(order[n..Cut(order, target)], stuck)
    ensures n == Cut(order, target) && n == Deleted(order[..n], stuck) && multiset(entries) == multiset(order[n..])
  {
    CutIsShortest(order, target);
    if entries == [] {
      assert |multiset(order[n..])| == 0;
    }
    assert order[n..n] == [];
  }

  // ------------------------------------------------------------------------------
  // There is exactly one order
  // ------------------------------------------------------------------------------

  lemma {:induction false} SomeVictim(items: seq<Item>) returns (v: nat)
    requires items != [] && Listed(items)
    ensures IsVictim(items, v)
  {
    if |items| == 1 {
      v := 0;
    } else {
      var front := items[..|items| - 1];
      var last := |items| - 1;
      v := SomeVictim(front);
      assert forall i | 0 <= i < |front| :: items[i] == front[i];
      if Cheaper(items[last], items[v]) {
        v := last;
      }
    }
  }

  /** Every listing can be arranged in the order of deletion, in one way only. */
  lemma {:induction false} OneOrder(items: seq<Item>) returns (order: seq<Item>)
    requires Listed(items)
    ensures IsOrder(order, items)
    ensures forall other | IsOrder(other, items) :: other == order
    decreases |items|
  {
    if items == [] {
      order := [];
      forall other | IsOrder(other, items) ensures other == order {
        assert |multiset(other)| == 0;
      }
    } else {
      var v := SomeVictim(items);
      MultisetWithout(items, v);
      var rest := OneOrder(Without(items, v));
      order := [items[v]] + rest;
      PutFirst(items, v, rest);
      forall other | IsOrder(other, items) ensures other == order {
        VictimIsFirst(other, items, v);
        assert other == [other[0]] + other[1..];
      }
    }
  }

  lemma PutFirst(items: seq<Item>, v: nat, rest: seq<Item>)
    requires IsVictim(items, v) && IsOrder(rest, Without(items, v))
    ensures IsOrder([items[v]] + rest, items)
  {
    hide Before;
    MultisetWithout(items, v);
    forall i | 0 <= i < |rest| ensures Before(items[v], rest[i]) {
      assert rest[i] in multiset(rest);
      var j :| 0 <= j < |Without(items, v)| && Without(items, v)[j] == rest[i];
      assert rest[i] == items[if j < v then j else j + 1];
    }
  }

  // ------------------------------------------------------------------------------
  // The size check
  // ------------------------------------------------------------------------------

  /** The 1% of headroom, rounded up. */
  function Slack(file: nat): nat {
    file / 100 + if file % 100 != 0 then 1 else 0
  }

  function FileSize(text: nat, payload: nat, trailer: nat): nat {
    FIXED + text + payload + trailer
  }

  /** A budget of 0 means no limit. */
  predicate SizeFits(budget: nat, file: nat) {
    file <= U64_MAX && (budget == 0 || file + Slack(file) <= budget)
  }

  /** Without a limit every size fits; otherwise a hundredth of the file must stay free. */
  lemma SlackIsOnePercent(budget: nat, file: nat)
    ensures SizeFits(budget, file) <==>
            file <= 0xFFFF_FFFF_FFFF_FFFF && (budget == 0 || (file <= budget && file <= 100 * (budget - file)))
  {
  }

  method FileSizeFits(budget: nat, text: nat, payload: nat, trailer: nat) returns (fits: bool, file: nat)
    requires budget <= U64_MAX && text <= U64_MAX && payload <= U64_MAX && trailer <= U64_MAX
    ensures var n := FileSize(text, payload, trailer);
            (fits <==> SizeFits(budget, n)) && (n <= U64_MAX ==> file == n)
  {
    file := 0;
    if U64_MAX - FIXED < text || U64_MAX - FIXED - text < payload || U64_MAX - FIXED - text - payload < trailer {
      return false, 0;
    }
    file := FIXED + text + payload + trailer;
    if budget == 0 {
      return true, file;
    }
    var slack := file / 100;
    if file % 100 != 0 {
      slack := slack + 1;
    }
    if U64_MAX - file < slack {
      return false, file;
    }
    fits := file + slack <= budget;
  }
}
