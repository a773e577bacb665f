/** The collection ranking job: it pages through the marketplace's
    collection list, 300 at a time, and upserts into the item store, keyed
    by contract address, every collection that has a single contract and a
    seven-day volume of at least 100. */
module Collection {
  import opened Common
  import opened Response
  import opened Record

  /** The page size the job asks for. */
  const Limit: nat := 300

  /** What happens at the top of one iteration of the paging loop: either
      the job has been cancelled, or the page at the current offset is
      requested; a received page also says which of its items' upserts
      fail (by index in the page). */
  datatype Round =
    | Cancelled
    | Fetched(reply: Result<seq<RawCollection>>, failedUpserts: set<nat>)

  /** Whether the loop ends at this round. */
  predicate StopsHere(round: Round) {
    round.Cancelled? || round.reply.Err? || |round.reply.value| < Limit
  }

  /** Some round ends the loop. */
  predicate Stops(rounds: seq<Round>)
    decreases |rounds|
  {
    |rounds| > 0 && (StopsHere(rounds[0]) || Stops(rounds[1..]))
  }

  /** The item stored for a collection: its name and statistics, and the
      address of its contract when it has exactly one. */
  function ToItem(c: RawCollection): (item: Item)
    ensures item.name == c.name && item.stats == c.stats
    ensures |c.primaryAssetContracts| == 1 ==> item.address == c.primaryAssetContracts[0].address
    ensures |c.primaryAssetContracts| != 1 ==> item.address == ""
  {
    var item := Item(name := c.name, address := "", stats := c.stats);
    if |c.primaryAssetContracts| == 1 then item.(address := c.primaryAssetContracts[0].address) else item
  }

  /** The items of a page, one per collection, in page order. */
  function Items(page: seq<RawCollection>): (items: seq<Item>)
    ensures |items| == |page|
    ensures forall i :: 0 <= i < |page| ==> items[i] == ToItem(page[i])
  {
    if page == [] then []
    else
      var n := |page| - 1;
      Items(page[..n]) + [ToItem(page[n])]
  }

  /** Whether an item is saved: it names a contract and its seven-day
      volume is not below 100. */
  predicate Kept(item: Item) {
    !item.stats.sevenDayVolumeBelow100 && item.address != ""
  }

  /** The store after upserting the batch in order: each kept item whose
      upsert does not fail replaces the entry under its address. */
  function Upserted(m: map<string, Item>, batch: seq<Item>, failed: set<nat>): (r: map<string, Item>)
    ensures m.Keys <= r.Keys
    ensures forall k :: k in r ==> (k in m && r[k] == m[k]) || (Kept(r[k]) && r[k].address == k)
  {
    if batch == [] then m
    else
      var n := |batch| - 1;
      var prev := Upserted(m, batch[..n], failed);
      if Kept(batch[n]) && n !in failed then prev[batch[n].address := batch[n]] else prev
  }

  /** How a run of the paging loop ends: its error, the offsets it
      requested, the offset it reached and the item store. */
  datatype Paging = Paging(err: Option<Error>, offsets: seq<int>, offset: int, store: map<string, Item>)

  /** The paging loop from `offset` on, with `offsets` requested so far. */
  function Paginate(rounds: seq<Round>, offset: int, store: map<string, Item>, offsets: seq<int>): (p: Paging)
    requires Stops(rounds)
    ensures offsets <= p.offsets
    decreases |rounds|
  {
    match rounds[0]
    case Cancelled => Paging(None, offsets, offset, store)
    case Fetched(reply, failed) =>
      if reply.Err? then Paging(Some(reply.error), offsets + [offset], offset, store)
      else
        var items := Items(reply.value);
        var next := Upserted(store, items, failed);
        if |items| < Limit then Paging(None, offsets + [offset], offset + |items|, next)
        else Paginate(rounds[1..], offset + |items|, next, offsets + [offset])
  }

  /** The number of collections in a round's page (none for a round that
      received no page). */
  function PageSize(round: Round): (size: nat) {
    if round.Fetched? && round.reply.Ok? then |round.reply.value| else 0
  }

  /** The number of collections on the pages of the rounds. */
  function Total(rounds: seq<Round>): (total: nat) {
    if rounds == [] then 0 else Total(rounds[..|rounds| - 1]) + PageSize(rounds[|rounds| - 1])
  }

  /** The index of the round that ends the loop. */
  function FirstStop(rounds: seq<Round>): (k: nat)
    requires Stops(rounds)
    ensures k < |rounds| && StopsHere(rounds[k])
    ensures forall j :: 0 <= j < k ==> !StopsHere(rounds[j])
    decreases |rounds|
  {
    if StopsHere(rounds[0]) then 0
    else
      var k := FirstStop(rounds[1..]);
      assert forall j :: 1 <= j <= k ==> rounds[j] == rounds[1..][j - 1];
      k + 1
  }

  class Collection {
    /** the items collection, by contract address */
    var items: map<string, Item>

    constructor (items: map<string, Item>)
      ensures this.items == items
    {
      this.items := items;
    }

    /** The items of a received page, one per collection, in page order; a
        failed request is returned as its error. */
    method RetrieveCollections(reply: Result<seq<RawCollection>>) returns (collections: seq<Item>, err: Option<Error>)
      ensures reply.Err? ==> collections == [] && err == Some(reply.error)
      ensures reply.Ok? ==> err.None? && |collections| == |reply.value|
      ensures reply.Ok? ==> forall i :: 0 <= i < |reply.value| ==>
        && collections[i].name == reply.value[i].name
        && collections[i].stats == reply.value[i].stats
        && (|reply.value[i].primaryAssetContracts| == 1 ==>
              collections[i].address == reply.value[i].primaryAssetContracts[0].address)
        && (|reply.value[i].primaryAssetContracts| != 1 ==> collections[i].address == "")
    {
      if reply.Err? {
        return [], Some(reply.error);
      }
      var page := reply.value;
      collections := [];
      var i := 0;
      while i < |page|
        invariant 0 <= i <= |page|
        invariant |collections| == i
        invariant forall j :: 0 <= j < i ==> collections[j] == ToItem(page[j])
      {
        var cc := page[i];
        var item := Item(name := cc.name, address := "", stats := cc.stats);
        var l := |cc.primaryAssetContracts|;
        if l >= 2 {
          // the Go code only logs this case
        } else if l == 1 {
          item := item.(address := cc.primaryAssetContracts[0].address);
        }
        collections := collections + [item];
        i := i + 1;
      }
      err := None;
    }

    /** Upserts the kept items in order. A failed upsert is only
        reported, so the result is always success. */
    method SaveCollections(collections: seq<Item>, failed: set<nat>) returns (err: Option<Error>)
      modifies this
      ensures err.None?
      ensures items == Upserted(old(items), collections, failed)
    {
      var i := 0;
      while i < |collections|
        invariant 0 <= i <= |collections|
        invariant items == Upserted(old(items), collections[..i], failed)
      {
        var cc := collections[i];
        assert collections[..i + 1][..i] == collections[..i];
        if !cc.stats.sevenDayVolumeBelow100 && cc.address != "" && i !in failed {
          items := items[cc.address := cc];
        }
        i := i + 1;
      }
      assert collections[..i] == collections;
      return None;
    }

    /** Pages through all collections until a short page, an error or
        cancellation; returns the error, if any, and the offsets
        requested. */
    method UpdateAll(rounds: seq<Round>) returns (err: Option<Error>, offsets: seq<int>)
      requires Stops(rounds)
      modifies this
      ensures var p := Paginate(rounds, 0, old(items), []);
        err == p.err && offsets == p.offsets && items == p.store
    {
      ghost var whole := Paginate(rounds, 0, items, []);
      var offset := 0;
      var size := Limit;
      var i := 0;
      offsets := [];
      while size >= Limit
        invariant 0 <= i <= |rounds|
        invariant size >= Limit ==> i < |rounds| && Stops(rounds[i..]) && whole == Paginate(rounds[i..], offset, items, offsets)
        invariant size < Limit ==> whole == Paging(None, offsets, offset, items)
        decreases |rounds| - i
      {
        match rounds[i]
        case Cancelled =>
          return None, offsets;
        case Fetched(reply, failed) =>
          var collections, e := RetrieveCollections(reply);
          if e.Some? {
            return e, offsets + [offset];
          }
          assert collections == Items(reply.value);
          size := |collections|;
          var _ := SaveCollections(collections, failed);
          offsets := offsets + [offset];
          offset := offset + size;
          if size >= Limit {
            assert rounds[i..][1..] == rounds[i + 1..];
          }
          i := i + 1;
      }
      err := None;
    }
  }

  // ---------------------------------------------------------------------
  // Properties

  /** The address of a stored item is that of its collection's only
      contract. */
  lemma KeptHasSingleContract(c: RawCollection)
    ensures Kept(ToItem(c)) ==>
      |c.primaryAssetContracts| == 1 && ToItem(c).address == c.primaryAssetContracts[0].address != ""
  {
  }

  /** An address that no kept, successful upsert writes keeps its entry,
      or its absence. In particular no item is stored under the empty
      address. */
  lemma {:induction false} UpsertedUntouched(m: map<string, Item>, batch: seq<Item>, failed: set<nat>, key: string)
    requires forall i :: 0 <= i < |batch| && Kept(batch[i]) && i !in failed ==> batch[i].address != key
    ensures var r := Upserted(m, batch, failed);
      (key in r <==> key in m) && (key in m ==> r[key] == m[key])
  {
    if batch != [] {
      UpsertedUntouched(m, batch[..|batch| - 1], failed, key);
    }
  }

  /** The last kept item of the batch with a given address whose upsert
      succeeded is the one stored under that address. */
  lemma {:induction false} UpsertedLastWins(m: map<string, Item>, batch: seq<Item>, failed: set<nat>, i: nat)
    requires i < |batch| && Kept(batch[i]) && i !in failed
    requires forall j :: i < j < |batch| && Kept(batch[j]) && j !in failed ==> batch[j].address != batch[i].address
    ensures var r := Upserted(m, batch, failed);
      batch[i].address in r && r[batch[i].address] == batch[i]
  {
    var n := |batch| - 1;
    if i < n {
      UpsertedLastWins(m, batch[..n], failed, i);
    }
  }

  /** The general form of OffsetsArePrefixSums, from any point of the loop. */
  lemma {:induction false} OffsetsFrom(rounds: seq<Round>, offset: int, store: map<string, Item>, offsets: seq<int>)
    requires Stops(rounds)
    ensures var p := Paginate(rounds, offset, store, offsets);
      && |p.offsets| <= |offsets| + |rounds|
      && forall k :: |offsets| <= k < |p.offsets| ==> p.offsets[k] == offset + Total(rounds[..k - |offsets|])
    decreases |rounds|
  {
    var p := Paginate(rounds, offset, store, offsets);
    assert rounds[..0] == [];
    assert rounds[..1] == [rounds[0]];
    match rounds[0]
    case Cancelled =>
    case Fetched(reply, failed) =>
      if reply.Ok? && |Items(reply.value)| >= Limit {
        var items := Items(reply.value);
        var next := Upserted(store, items, failed);
        var acc := offsets + [offset];
        OffsetsFrom(rounds[1..], offset + |items|, next, acc);
        forall k | |acc| <= k < |p.offsets|
          ensures p.offsets[k] == offset + Total(rounds[..k - |offsets|])
        {
          TotalCons(rounds, k - |offsets|);
          assert rounds[1..][..k - |acc|] == rounds[1..k - |offsets|];
        }
      }
  }

  /** The first round's page followed by the rest. */
  lemma {:induction false} TotalCons(rounds: seq<Round>, k: nat)
    requires 1 <= k <= |rounds|
    ensures Total(rounds[..k]) == PageSize(rounds[0]) + Total(rounds[1..k])
  {
    if k > 1 {
      TotalCons(rounds, k - 1);
      assert rounds[..k][..k - 1] == rounds[..k - 1];
      assert rounds[1..k][..k - 2] == rounds[1..k - 1];
    } else {
      assert rounds[..1][..0] == [];
      assert rounds[1..1] == [];
    }
  }

  /** Each requested offset is the number of collections on the pages
      before it. */
  lemma OffsetsArePrefixSums(rounds: seq<Round>, store: map<string, Item>)
    requires Stops(rounds)
    ensures var p := Paginate(rounds, 0, store, []);
      |p.offsets| <= |rounds| && forall k :: 0 <= k < |p.offsets| ==> p.offsets[k] == Total(rounds[..k])
  {
    OffsetsFrom(rounds, 0, store, []);
  }

  /** The loop requests one page per round up to the round that ends it,
      that one included unless it was a cancellation, and returns that
      round's error, if any. */
  lemma {:induction false} StopsAtFirstStop(rounds: seq<Round>, offset: int, store: map<string, Item>, offsets: seq<int>)
    requires Stops(rounds)
    ensures var p := Paginate(rounds, offset, store, offsets);
      var k := FirstStop(rounds);
      && |p.offsets| == |offsets| + k + (if rounds[k].Cancelled? then 0 else 1)
      && p.err == (if rounds[k].Fetched? && rounds[k].reply.Err? then Some(rounds[k].reply.error) else None)
    decreases |rounds|
  {
    if !StopsHere(rounds[0]) {
      var items := Items(rounds[0].reply.value);
      StopsAtFirstStop(rounds[1..], offset + |items|, Upserted(store, items, rounds[0].failedUpserts), offsets + [offset]);
      assert rounds[1..][FirstStop(rounds) - 1] == rounds[FirstStop(rounds)];
    }
  }

  /** Pages of 300, 300 and 57 collections: three requests, at offsets
      0, 300 and 600, ending at offset 657 without error. */
  lemma ThreePages(a: seq<RawCollection>, b: seq<RawCollection>, c: seq<RawCollection>, fa: set<nat>, fb: set<nat>, fc: set<nat>, store: map<string, Item>)
    requires |a| == 300 && |b| == 300 && |c| == 57
    ensures var rounds := [Fetched(Ok(a), fa), Fetched(Ok(b), fb), Fetched(Ok(c), fc)];
      Stops(rounds) && var p := Paginate(rounds, 0, store, []);
      p.offsets == [0, 300, 600] && p.offset == 657 && p.err.None?
  {
    var rounds := [Fetched(Ok(a), fa), Fetched(Ok(b), fb), Fetched(Ok(c), fc)];
    assert rounds[1..][1..] == [Fetched(Ok(c), fc)];
    assert StopsHere(rounds[2]);
    var s1 := Upserted(store, Items(a), fa);
    var s2 := Upserted(s1, Items(b), fb);
    var p3 := Paginate([Fetched(Ok(c), fc)], 600, s2, [0, 300]);
    assert p3 == Paging(None, [0, 300, 600], 657, Upserted(s2, Items(c), fc));
    assert Stops(rounds[1..][1..]);
    assert Stops(rounds[1..]);
    assert rounds[1..][0] == Fetched(Ok(b), fb) && |Items(b)| == 300;
    assert [0] + [300] == [0, 300];
    var p2 := Paginate(rounds[1..], 300, s1, [0]);
    assert p2 == p3;
    assert rounds[0] == Fetched(Ok(a), fa) && |Items(a)| == 300;
    assert [] + [0] == [0];
    assert Paginate(rounds, 0, store, []) == p2;
  }
}
