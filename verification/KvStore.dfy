/** Storing one more checkpoint, and what that does to the size of the cache
    (ds4_kvstore_store_live_prefix_text and kv_cache_rewrite_trailer in ds4_kvstore.c). */
module KvStore {
  import opened KvEvict

  // ------------------------------------------------------------------------------
  // The size of the cache
  // ------------------------------------------------------------------------------

  ghost function Pick(files: map<nat, nat>): (n: nat)
    requires files != map[]
    ensures n in files
  {
    assert files.Keys != {};
    var n :| n in files.Keys;
    n
  }

  ghost function Total(files: map<nat, nat>): nat
    decreases files.Keys
  {
    if files == map[] then 0
    else
      var n := Pick(files);
      assert n !in files - {n} && n in files;
      files[n] + Total(files - {n})
  }

  /** The total does not depend on where one starts. */
  lemma {:induction false} TotalPick(files: map<nat, nat>, n: nat)
    requires n in files
    ensures Total(files) == files[n] + Total(files - {n})
    decreases files.Keys
  {
    var m := Pick(files);
    if m != n {
      assert m !in files - {m} && m in files;
      TotalPick(files - {m}, n);
      assert n !in files - {n};
      TotalPick(files - {n}, m);
      assert files - {m} - {n} == files - {n} - {m};
    }
  }

  lemma TotalPut(files: map<nat, nat>, n: nat, size: nat)
    ensures Total(files[n := size]) == size + Total(files - {n})
    ensures Total(files - {n}) <= Total(files)
  {
    TotalPick(files[n := size], n);
    assert files[n := size] - {n} == files - {n};
    if n in files {
      TotalPick(files, n);
    } else {
      assert files - {n} == files;
    }
  }

  ghost predicate Shows(listing: seq<Item>, n: nat) {
    exists i :: 0 <= i < |listing| && listing[i].name == n
  }

  /** What the directory shows: every readable file once, with its size. */
  ghost predicate Lists(listing: seq<Item>, files: map<nat, nat>) {
    && Listed(listing)
    && (forall i | 0 <= i < |listing| :: listing[i].name in files && files[listing[i].name] == listing[i].size)
    && (forall n | n in files :: Shows(listing, n))
  }

  lemma RestShows(listing: seq<Item>, i: nat, n: nat)
    requires i < |listing| && Shows(listing, n) && n != listing[i].name
    ensures Shows(Without(listing, i), n)
  {
    var j :| 0 <= j < |listing| && listing[j].name == n;
    assert Without(listing, i)[if j < i then j else j - 1] == listing[j];
  }

  lemma ListsRest(listing: seq<Item>, files: map<nat, nat>, i: nat)
    requires Lists(listing, files) && i < |listing|
    ensures Lists(Without(listing, i), files - {listing[i].name})
  {
    hide Shows;
    var rest, left := Without(listing, i), files - {listing[i].name};
    MultisetWithout(listing, i);
    forall j | 0 <= j < |rest| ensures rest[j].name in left && left[rest[j].name] == rest[j].size {
      var at := if j < i then j else j + 1;
      assert rest[j] == listing[at];
      assert listing[at].name != listing[i].name;
    }
    forall n | n in left ensures Shows(rest, n) {
      RestShows(listing, i, n);
    }
  }

  lemma {:induction false} ListingTotal(listing: seq<Item>, files: map<nat, nat>)
    requires Lists(listing, files)
    ensures Sum(listing) == Total(files)
    decreases |listing|
  {
    if listing == [] {
      NothingShown(files);
    } else {
      hide Lists;
      ShownIsThere(listing, files);
      ListsRest(listing, files, 0);
      assert Without(listing, 0) == listing[1..];
      ListingTotal(listing[1..], files - {listing[0].name});
      TotalPick(files, listing[0].name);
    }
  }

  lemma NothingShown(files: map<nat, nat>)
    requires Lists([], files)
    ensures files == map[]
  {
    hide Shows;
    if files != map[] {
      NeverShown(Pick(files));
    }
  }

  lemma NeverShown(n: nat)
    ensures !Shows([], n)
  {
  }

  lemma ShownIsThere(listing: seq<Item>, files: map<nat, nat>)
    requires Lists(listing, files) && listing != []
    ensures listing[0].name in files && files[listing[0].name] == listing[0].size
  {
  }

  lemma NamesOfFirst(order: seq<Item>, k: nat)
    requires 0 < k <= |order|
    ensures Names(order[..k]) == {order[0].name} + Names(order[1..][..k - 1])
  {
    var first, rest := order[..k], order[1..][..k - 1];
    assert first == [order[0]] + rest;
    forall x ensures x in Names(first) <==> x in {order[0].name} + Names(rest) {
      if x in Names(first) {
        var i :| i in first && i.name == x;
      }
      if x in Names(rest) {
        var i :| i in rest && i.name == x;
        assert i in first;
      }
      if x == order[0].name {
        assert order[0] in first;
      }
    }
  }

  /** What is left once the first `k` items of the order are gone. */
  lemma {:induction false} TotalLeft(order: seq<Item>, listing: seq<Item>, files: map<nat, nat>, k: nat)
    requires multiset(order) == multiset(listing) && Lists(listing, files) && k <= |order|
    ensures Total(files - Names(order[..k])) == Sum(order[k..])
    decreases k
  {
    if k == 0 {
      assert order[..0] == [] && order[0..] == order;
      assert files - Names(order[..0]) == files;
      SumOfOrder(order, listing);
      ListingTotal(listing, files);
    } else {
      assert order[0] in multiset(order);
      var i :| 0 <= i < |listing| && listing[i] == order[0];
      SameRest(order, listing, i);
      ListsRest(listing, files, i);
      TotalLeft(order[1..], Without(listing, i), files - {order[0].name}, k - 1);
      NamesOfFirst(order, k);
      assert files - {order[0].name} - Names(order[1..][..k - 1]) == files - Names(order[..k]);
      assert order[1..][k - 1..] == order[k..];
    }
  }

  lemma {:induction false} AllDeleted(due: seq<Item>)
    ensures Deleted(due, {}) == |due|
  {
    if due != [] {
      AllDeleted(due[1..]);
    }
  }

  // ------------------------------------------------------------------------------
  // Storing
  // ------------------------------------------------------------------------------

  /** One checkpoint to be stored.  `name` is the hash of its text; `compatible` says whether a
      readable file of that name has the same text and can be used instead, and then
      `kept` is the size of its payload.  `estimate` is the trailer's size as foretold, and
      `written` as it comes out.  `staged` and `saved` are what the session and the file
      system answer. */
  datatype Request = Request(name: nat, compatible: bool, kept: nat, text: nat, payload: nat,
                             estimate: nat, written: nat, staged: bool, saved: bool)
  {
    predicate Ok() {
      text < 0x1_0000_0000 && payload <= U64_MAX && estimate <= U64_MAX && written <= U64_MAX
    }

    /** An existing file gets a new trailer and nothing else. */
    predicate Reuses(files: map<nat, nat>) {
      name in files && compatible
    }

    function Foretold(): nat {
      FileSize(text, payload, estimate)
    }

    function Final(): nat {
      FileSize(text, payload, written)
    }

    function Rewritten(): nat {
      FileSize(text, kept, written)
    }
  }

  /** A readable file of the same name that cannot be used is deleted first, if it can be. */
  function Cleared(files: map<nat, nat>, r: Request, stuck: set<nat>): map<nat, nat> {
    if r.name in files && r.name !in stuck then files - {r.name} else files
  }

  ghost function Evicted(budget: nat, files: map<nat, nat>, order: seq<Item>, extra: nat, stuck: set<nat>): map<nat, nat> {
    if budget == 0 || budget < extra then files
    else files - Names(order[..Deleted(order[..Cut(order, budget - extra)], stuck)])
  }

  method RewriteTrailer(kc: Store, r: Request)
    requires r.Reuses(kc.files)
    modifies kc`files
    ensures kc.files == if r.estimate == 0 || !r.saved then old(kc.files) else old(kc.files)[r.name := r.Rewritten()]
  {
    if r.estimate == 0 || !r.saved {
      return;
    }
    var end := FIXED + r.text + r.kept;
    kc.files := kc.files[r.name := end + r.written];
  }

  /** The whole call.  `listing` is what the directory shows when room is made. */
  method StoreLivePrefix(kc: Store, r: Request, listing: seq<Item>, stuck: set<nat>, ghost order: seq<Item>) returns (ok: bool)
    requires r.Ok() && kc.budget <= U64_MAX
    requires !r.Reuses(kc.files) ==> Lists(listing, Cleared(kc.files, r, stuck)) && IsOrder(order, listing)
    modifies kc`entries, kc`files
    ensures r.Reuses(old(kc.files)) ==>
      ok && kc.files == if r.estimate == 0 || !r.saved then old(kc.files) else old(kc.files)[r.name := r.Rewritten()]
    ensures !r.Reuses(old(kc.files)) ==>
      var cleared := Cleared(old(kc.files), r, stuck);
      var evicted := Evicted(kc.budget, cleared, order, r.Foretold(), stuck);
      && (ok <==> r.staged && r.saved && SizeFits(kc.budget, r.Foretold()) && SizeFits(kc.budget, r.Final()))
      && kc.files == if !r.staged || !SizeFits(kc.budget, r.Foretold()) then cleared
                     else if ok then evicted[r.name := r.Final()] else evicted
    // the budget
    ensures !r.Reuses(old(kc.files)) && stuck == {} && 0 < kc.budget && ok ==>
      Total(kc.files) <= kc.budget - r.Foretold() + r.Final()
  {
    hide Lists, IsOrder, Cut, Deleted, Names, Total, Slack;
    if r.name in kc.files {
      if r.compatible {
        RewriteTrailer(kc, r);
        return true;
      }
      if r.name !in stuck {
        kc.files := kc.files - {r.name};
      }
    }
    if !r.staged {
      return false;
    }
    var fits, foretold := FileSizeFits(kc.budget, r.text, r.payload, r.estimate);
    if !fits {
      return false;
    }
    ghost var cleared := kc.files;
    ListsIsListed(listing, cleared);
    kc.Evict(foretold, listing, stuck, order);
    assert kc.files == Evicted(kc.budget, cleared, order, foretold, stuck);
    ok := r.saved;
    if ok {
      var final: nat;
      ok, final := FileSizeFits(kc.budget, r.text, r.payload, r.written);
      if ok {
        if stuck == {} && 0 < kc.budget {
          RoomMade(kc.budget, cleared, order, listing, foretold);
          TotalPut(kc.files, r.name, final);
        }
        kc.files := kc.files[r.name := final];
      }
    }
  }

  lemma ListsIsListed(listing: seq<Item>, files: map<nat, nat>)
    requires Lists(listing, files)
    ensures Listed(listing)
  {
  }

  lemma OrderOf(order: seq<Item>, listing: seq<Item>)
    requires IsOrder(order, listing)
    ensures multiset(order) == multiset(listing)
  {
  }

  /** After the eviction there is room for what was foretold. */
  lemma RoomMade(budget: nat, files: map<nat, nat>, order: seq<Item>, listing: seq<Item>, extra: nat)
    requires Lists(listing, files) && IsOrder(order, listing) && 0 < budget && extra <= budget
    ensures Total(Evicted(budget, files, order, extra, {})) <= budget - extra
  {
    hide Lists, IsOrder, Cut, Deleted, Names, Total, Sum;
    var k := Cut(order, budget - extra);
    AllDeleted(order[..k]);
    OrderOf(order, listing);
    TotalLeft(order, listing, files, k);
    CutIsShortest(order, budget - extra);
  }

  // ------------------------------------------------------------------------------
  // Exactly when the budget is kept
  // ------------------------------------------------------------------------------

  /** No readable file is smaller than its header. */
  ghost predicate Readable(files: map<nat, nat>) {
    forall n | n in files :: FIXED <= files[n]
  }

  /** A cache directory at the moment room is made for the request. */
  ghost predicate Situation(files: map<nat, nat>, listing: seq<Item>, order: seq<Item>, r: Request) {
    Lists(listing, files) && IsOrder(order, listing) && Readable(files) && r.name !in files
  }

  /** What StoreLivePrefix leaves there when it succeeds. */
  ghost function Stored(budget: nat, files: map<nat, nat>, order: seq<Item>, r: Request): map<nat, nat> {
    Evicted(budget, files, order, r.Foretold(), {})[r.name := r.Final()]
  }

  ghost predicate StoreIsSafe(budget: nat, r: Request) {
    forall files, listing, order | Situation(files, listing, order, r) ::
      Total(Stored(budget, files, order, r)) <= budget
  }

  /** Whatever the cache held, storing keeps it within budget exactly when the trailer does not
      outgrow its estimate, or no other file could have stayed beside the new one anyway. */
  lemma BudgetNeedsEstimate(budget: nat, r: Request)
    requires r.Ok() && 0 < budget && SizeFits(budget, r.Foretold()) && SizeFits(budget, r.Final())
    ensures StoreIsSafe(budget, r) <==> r.written <= r.estimate || budget < r.Foretold() + FIXED
  {
    hide Total, Evicted, Situation;
    if r.written <= r.estimate || budget < r.Foretold() + FIXED {
      forall files, listing, order | Situation(files, listing, order, r)
        ensures Total(Stored(budget, files, order, r)) <= budget
      {
        StoredInRoom(budget, files, listing, order, r);
      }
    } else {
      FillsTheGap(budget, r);
    }
  }

  lemma StoredInRoom(budget: nat, files: map<nat, nat>, listing: seq<Item>, order: seq<Item>, r: Request)
    requires r.Ok() && 0 < budget && SizeFits(budget, r.Foretold()) && SizeFits(budget, r.Final())
    requires Situation(files, listing, order, r)
    requires r.written <= r.estimate || budget < r.Foretold() + FIXED
    ensures Total(Stored(budget, files, order, r)) <= budget
  {
    hide Total, IsOrder, Lists, Readable, Evicted;
    var left := Evicted(budget, files, order, r.Foretold(), {});
    RoomMade(budget, files, order, listing, r.Foretold());
    TotalPut(left, r.name, r.Final());
    if r.estimate < r.written {
      EvictedIsReadable(budget, files, order, r.Foretold());
      TooBigToStay(left);
      NothingThere(left, r.name);
    }
  }

  lemma NothingThere(files: map<nat, nat>, n: nat)
    requires files == map[]
    ensures Total(files - {n}) == 0
  {
    assert files - {n} == map[];
  }

  lemma EvictedIsReadable(budget: nat, files: map<nat, nat>, order: seq<Item>, extra: nat)
    requires Readable(files)
    ensures Readable(Evicted(budget, files, order, extra, {}))
  {
    hide Names, Cut, Deleted;
  }

  lemma TooBigToStay(files: map<nat, nat>)
    requires Readable(files)
    ensures files == map[] || FIXED <= Total(files)
  {
    if files != map[] {
      TotalPick(files, Pick(files));
    }
  }

  lemma OneFile(n: nat, size: nat)
    ensures Total(map[n := size]) == size
  {
    TotalPick(map[n := size], n);
    NothingThere(map[], n);
    assert map[n := size] - {n} == map[];
  }

  lemma TwoFiles(n: nat, size: nat, other: nat, more: nat)
    requires n != other
    ensures Total(map[n := size, other := more]) == size + more
  {
    TotalPick(map[n := size, other := more], n);
    assert map[n := size, other := more] - {n} == map[other := more];
    OneFile(other, more);
  }

  /** One other file that fills what the estimate leaves. */
  lemma FillsTheGap(budget: nat, r: Request)
    requires r.estimate < r.written && r.Foretold() + FIXED <= budget
    ensures !StoreIsSafe(budget, r)
  {
    hide Total, SizeFits;
    var other, size := r.name + 1, budget - r.Foretold();
    var files, only := map[other := size], Item(other, size, 0.0, 0, 0);
    assert [only][0].name == other;
    assert Shows([only], other);
    assert [only][1..] == [];
    assert Sum([only]) == size;
    assert Cut([only], budget - r.Foretold()) == 0;
    assert Names([only][..0]) == {};
    assert Evicted(budget, files, [only], r.Foretold(), {}) == files;
    assert Situation(files, [only], [only], r);
    assert Stored(budget, files, [only], r) == map[r.name := r.Final(), other := size];
    TwoFiles(r.name, r.Final(), other, size);
  }

  /** Rewriting the trailer of an existing file, whatever else is in a cache within budget. */
  ghost predicate RewriteIsSafe(budget: nat, r: Request, size: nat) {
    forall files: map<nat, nat> | r.name in files && files[r.name] == size && Readable(files) && Total(files) <= budget ::
      Total(files[r.name := r.Rewritten()]) <= budget
  }

  /** That path makes no room.  It keeps the budget exactly when the file does not grow, or no
      other file could be beside it and it fits alone. */
  lemma RewriteNeedsRoom(budget: nat, r: Request, size: nat)
    requires FIXED <= size <= budget
    ensures RewriteIsSafe(budget, r, size) <==> r.Rewritten() <= size || (r.Rewritten() <= budget < size + FIXED)
  {
    hide Total;
    if r.Rewritten() <= size || (r.Rewritten() <= budget < size + FIXED) {
      forall files: map<nat, nat> | r.name in files && files[r.name] == size && Readable(files) && Total(files) <= budget
        ensures Total(files[r.name := r.Rewritten()]) <= budget
      {
        TotalPut(files, r.name, r.Rewritten());
        TotalPick(files, r.name);
        TooBigToStay(files - {r.name});
        if files - {r.name} == map[] {
          NothingThere(map[], r.name);
          assert map[] - {r.name} == files - {r.name} - {r.name} == files - {r.name};
        }
      }
    } else if budget < size + FIXED {
      OneFile(r.name, size);
      OneFile(r.name, r.Rewritten());
      assert map[r.name := size][r.name := r.Rewritten()] == map[r.name := r.Rewritten()];
    } else {
      var other := r.name + 1;
      var files := map[r.name := size, other := budget - size];
      TwoFiles(r.name, size, other, budget - size);
      TwoFiles(r.name, r.Rewritten(), other, budget - size);
      assert files[r.name := r.Rewritten()] == map[r.name := r.Rewritten(), other := budget - size];
    }
  }

  /** A cache of one file of 100 bytes and a budget of 120: a new trailer of 50 bytes breaks it. */
  lemma RewriteCanBreakTheBudget() returns (budget: nat, files: map<nat, nat>, r: Request)
    ensures r.Ok() && r.Reuses(files) && 0 < r.estimate && r.saved && r.written == r.estimate
    ensures Readable(files) && Total(files) <= budget < Total(files[r.name := r.Rewritten()])
  {
    budget, files := 120, map[1 := 100];
    r := Request(1, true, 40, 8, 40, 50, 50, true, true);
    OneFile(1, 100);
    OneFile(1, 150);
    assert files[1 := 150] == map[1 := 150];
  }
}
