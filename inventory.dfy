/**
 * The inventory store (`SweetsProvider`): one ordered sequence of sweets that
 * every operation replaces by a `map`, `filter` or append of the old one.
 * The pure transforms come first, then what they promise, then the store.
 */
module Inventory {
  import opened Wrappers
  import opened Sequences
  import opened SweetTypes

  /** `Partial<Sweet>`: each present field overwrites the item's; an absent one leaves it. */
  datatype Patch = Patch(
    id: Option<string>,
    name: Option<string>,
    category: Option<Category>,
    price: Option<real>,
    quantity: Option<int>,
    description: Option<string>,
    image: Option<string>)

  const NoChange: Patch := Patch(None, None, None, None, None, None, None)

  /** `{ ...sweet, ...updates }` */
  function Apply(x: Sweet, p: Patch): Sweet {
    Sweet(
      p.id.GetOr(x.id),
      p.name.GetOr(x.name),
      p.category.GetOr(x.category),
      p.price.GetOr(x.price),
      p.quantity.GetOr(x.quantity),
      p.description.GetOr(x.description),
      p.image.GetOr(x.image))
  }

  /** `{ ...p, ...q }`: the fields of `q` win over those of `p`. */
  function Merge(p: Patch, q: Patch): Patch {
    Patch(
      q.id.OrElse(p.id),
      q.name.OrElse(p.name),
      q.category.OrElse(p.category),
      q.price.OrElse(p.price),
      q.quantity.OrElse(p.quantity),
      q.description.OrElse(p.description),
      q.image.OrElse(p.image))
  }

  /** A patch that leaves the item's id as `id` (no id, or that same id). */
  predicate KeepsId(p: Patch, id: string) {
    p.id.None? || p.id.value == id
  }

  // ---- the state and its invariant -------------------------------------------------

  /** The ids of the items, in display order. */
  function Ids(s: seq<Sweet>): seq<string> {
    seq(|s|, i requires 0 <= i < |s| => s[i].id)
  }

  /** No two items share an id. */
  predicate UniqueIds(s: seq<Sweet>) {
    forall i, j :: 0 <= i < j < |s| ==> s[i].id != s[j].id
  }

  /** No item has negative stock. */
  predicate Stocked(s: seq<Sweet>) {
    forall i :: 0 <= i < |s| ==> s[i].quantity >= 0
  }

  /** The inventory invariant: stock is never negative and ids identify items. */
  predicate Consistent(s: seq<Sweet>) {
    Stocked(s) && UniqueIds(s)
  }

  function HasId(id: string): Sweet -> bool {
    (x: Sweet) => x.id == id
  }

  function LacksId(id: string): Sweet -> bool {
    (x: Sweet) => x.id != id
  }

  /** The number of items carrying `id`. */
  function CountId(s: seq<Sweet>, id: string): nat {
    |Filter(s, HasId(id))|
  }

  // ---- the transforms -------------------------------------------------------------

  /** `sweets.find(s => s.id === id)`: the index of the first item with `id`, if any. */
  function Find(s: seq<Sweet>, id: string): (r: Option<nat>)
    ensures r.Some? ==> r.value < |s| && s[r.value].id == id
    ensures r.Some? ==> forall j :: 0 <= j < r.value ==> s[j].id != id
    ensures r.None? ==> forall j :: 0 <= j < |s| ==> s[j].id != id
    decreases |s|
  {
    if s == [] then None
    else if s[0].id == id then Some(0)
    else
      match Find(s[1..], id)
      case None => None
      case Some(k) => Some(k + 1)
  }

  /** `prev.map(s => s.id === id ? f(s) : s)` */
  function MapWhere(s: seq<Sweet>, id: string, f: Sweet -> Sweet): seq<Sweet> {
    seq(|s|, i requires 0 <= i < |s| => if s[i].id == id then f(s[i]) else s[i])
  }

  function Patcher(p: Patch): Sweet -> Sweet {
    (x: Sweet) => Apply(x, p)
  }

  const TakeOne: Sweet -> Sweet := (x: Sweet) => x.(quantity := x.quantity - 1)

  function AddStock(amount: int): Sweet -> Sweet {
    (x: Sweet) => x.(quantity := x.quantity + amount)
  }

  /** `addSweet`: the new item, with its id, goes at the end. */
  function Added(s: seq<Sweet>, f: SweetFields, id: string): seq<Sweet> {
    s + [WithId(f, id)]
  }

  /** `updateSweet`: patch every item with the id. */
  function Updated(s: seq<Sweet>, id: string, p: Patch): seq<Sweet> {
    MapWhere(s, id, Patcher(p))
  }

  /** `deleteSweet`: keep the items whose id differs. */
  function Deleted(s: seq<Sweet>, id: string): seq<Sweet> {
    Filter(s, LacksId(id))
  }

  /** The guard of `purchaseSweet`: the first item with the id exists and has stock. */
  predicate CanPurchase(s: seq<Sweet>, id: string) {
    match Find(s, id)
    case None => false
    case Some(i) => s[i].quantity > 0
  }

  /** The update `purchaseSweet` makes once its guard holds. */
  function Purchased(s: seq<Sweet>, id: string): seq<Sweet> {
    MapWhere(s, id, TakeOne)
  }

  /** `restockSweet`: add `amount` to every item with the id. */
  function Restocked(s: seq<Sweet>, id: string, amount: int): seq<Sweet> {
    MapWhere(s, id, AddStock(amount))
  }

  // ---- what the transforms promise ----------------------------------------------------

  /** A map that keeps ids keeps the length and the id sequence, so display order is kept. */
  lemma MapWhereKeepsIds(s: seq<Sweet>, id: string, f: Sweet -> Sweet)
    requires forall x :: f(x).id == x.id
    ensures |MapWhere(s, id, f)| == |s|
    ensures Ids(MapWhere(s, id, f)) == Ids(s)
  {
  }

  /** A map changes nothing when no item carries the id. */
  lemma MapWhereAbsent(s: seq<Sweet>, id: string, f: Sweet -> Sweet)
    requires forall i :: 0 <= i < |s| ==> s[i].id != id
    ensures MapWhere(s, id, f) == s
  {
  }

  /** Patching with nothing changes nothing. */
  lemma ApplyNoChange(x: Sweet)
    ensures Apply(x, NoChange) == x
  {
  }

  /** Applying two patches in turn is applying their merge. */
  lemma ApplyMerge(x: Sweet, p: Patch, q: Patch)
    ensures Apply(Apply(x, p), q) == Apply(x, Merge(p, q))
  {
  }

  /** Applying a patch twice is applying it once. */
  lemma ApplyIdempotent(x: Sweet, p: Patch)
    ensures Apply(Apply(x, p), p) == Apply(x, p)
  {
  }

  /** `addSweet` appends exactly one item, carrying the given fields and id, and keeps the rest. */
  lemma AddAppends(s: seq<Sweet>, f: SweetFields, id: string)
    ensures |Added(s, f, id)| == |s| + 1
    ensures Added(s, f, id)[..|s|] == s
    ensures Added(s, f, id)[|s|].id == id
    ensures WithoutId(Added(s, f, id)[|s|]) == f
  {
  }

  /** With a fresh id and non-negative stock, adding keeps the invariant. */
  lemma AddKeepsConsistent(s: seq<Sweet>, f: SweetFields, id: string)
    requires Consistent(s)
    requires id !in Ids(s) && f.quantity >= 0
    ensures Consistent(Added(s, f, id))
  {
    var r := Added(s, f, id);
    forall i, j | 0 <= i < j < |r| ensures r[i].id != r[j].id {
      if j == |s| {
        assert Ids(s)[i] == s[i].id;
      }
    }
  }

  /** `updateSweet` patches the items with the id, and only those; length and order stay. */
  lemma UpdateTouchesOnlyMatching(s: seq<Sweet>, id: string, p: Patch, i: int)
    requires 0 <= i < |s|
    ensures |Updated(s, id, p)| == |s|
    ensures s[i].id == id ==> Updated(s, id, p)[i] == Apply(s[i], p)
    ensures s[i].id != id ==> Updated(s, id, p)[i] == s[i]
  {
  }

  /** Repeating an update with the same patch changes nothing more. */
  lemma UpdateIdempotent(s: seq<Sweet>, id: string, p: Patch)
    ensures Updated(Updated(s, id, p), id, p) == Updated(s, id, p)
  {
  }

  /** A patch that keeps the id and sets no negative stock keeps the invariant and the ids. */
  lemma UpdateKeepsConsistent(s: seq<Sweet>, id: string, p: Patch)
    requires Consistent(s)
    requires KeepsId(p, id)
    requires p.quantity.None? || p.quantity.value >= 0
    ensures Ids(Updated(s, id, p)) == Ids(s)
    ensures Consistent(Updated(s, id, p))
  {
  }

  /** After `deleteSweet` no item carries the id, and every other item is still there, in order. */
  lemma DeleteRemovesOnlyId(s: seq<Sweet>, id: string, x: Sweet)
    ensures x in Deleted(s, id) <==> x in s && x.id != id
    ensures IsSubsequence(Deleted(s, id), s)
  {
    FilterMembership(s, LacksId(id), x);
    FilterIsSubsequence(s, LacksId(id));
  }

  /** `deleteSweet` removes exactly the items with the id: the length drops by their number. */
  lemma DeleteLength(s: seq<Sweet>, id: string)
    ensures |Deleted(s, id)| == |s| - CountId(s, id)
  {
    FilterSplits(s, LacksId(id), HasId(id));
  }

  /** Deleting the same id twice is deleting it once. */
  lemma DeleteIdempotent(s: seq<Sweet>, id: string)
    ensures Deleted(Deleted(s, id), id) == Deleted(s, id)
  {
    FilterIdempotent(s, LacksId(id));
  }

  /** Deleting an id no item carries changes nothing. */
  lemma DeleteAbsent(s: seq<Sweet>, id: string)
    requires forall i :: 0 <= i < |s| ==> s[i].id != id
    ensures Deleted(s, id) == s
  {
    FilterKeepsAll(s, LacksId(id));
  }

  /** With distinct ids, at most one item carries any id. */
  lemma {:induction false} CountIdUnique(s: seq<Sweet>, id: string)
    requires UniqueIds(s)
    ensures CountId(s, id) <= 1
    ensures CountId(s, id) == 1 <==> exists k :: 0 <= k < |s| && s[k].id == id
    decreases |s|
  {
    if s != [] {
      var init := s[..|s| - 1];
      var last := s[|s| - 1];
      assert Filter(s, HasId(id)) == Filter(init, HasId(id)) + (if last.id == id then [last] else []);
      CountIdUnique(init, id);
      if last.id == id {
        FilterDropsAll(init, HasId(id));
      } else {
        if exists k :: 0 <= k < |s| && s[k].id == id {
          var k :| 0 <= k < |s| && s[k].id == id;
          assert init[k].id == id;
        }
      }
    }
  }

  /** With distinct ids, deleting a present id removes exactly one item. */
  lemma DeleteExactlyOne(s: seq<Sweet>, id: string)
    requires UniqueIds(s)
    requires Find(s, id).Some?
    ensures |Deleted(s, id)| == |s| - 1
  {
    DeleteLength(s, id);
    CountIdUnique(s, id);
  }

  /** Deleting keeps the invariant: what remains is a subsequence of a consistent inventory. */
  lemma DeleteKeepsConsistent(s: seq<Sweet>, id: string)
    requires Consistent(s)
    ensures Consistent(Deleted(s, id))
  {
    FilterKeepsConsistent(s, LacksId(id));
  }

  lemma {:induction false} FilterKeepsConsistent(s: seq<Sweet>, keep: Sweet -> bool)
    requires Consistent(s)
    ensures Consistent(Filter(s, keep))
    decreases |s|
  {
    if s != [] {
      var init := s[..|s| - 1];
      var last := s[|s| - 1];
      FilterKeepsConsistent(init, keep);
      if keep(last) {
        var f := Filter(init, keep);
        forall i | 0 <= i < |f| ensures f[i].id != last.id {
          FilterMembership(init, keep, f[i]);
          var k :| 0 <= k < |init| && init[k] == f[i];
        }
        assert Filter(s, keep) == f + [last];
      } else {
        assert Filter(s, keep) == Filter(init, keep);
      }
    }
  }

  /** With distinct ids, the purchase guard holds exactly when the item with the id has stock. */
  lemma PurchaseGuard(s: seq<Sweet>, id: string)
    requires UniqueIds(s)
    ensures CanPurchase(s, id) <==> exists i :: 0 <= i < |s| && s[i].id == id && s[i].quantity > 0
  {
  }

  /** The purchase guard fails when no item has the id. */
  lemma PurchaseRefusedAbsent(s: seq<Sweet>, id: string)
    requires forall i :: 0 <= i < |s| ==> s[i].id != id
    ensures !CanPurchase(s, id)
  {
  }

  /** The purchase guard fails when the first item with the id has no stock. */
  lemma PurchaseRefusedSoldOut(s: seq<Sweet>, id: string, i: int)
    requires 0 <= i < |s| && s[i].id == id && s[i].quantity <= 0
    requires forall j :: 0 <= j < i ==> s[j].id != id
    ensures !CanPurchase(s, id)
  {
  }

  /** A purchase takes exactly one unit from the item, i.e. it is a restock by -1. */
  lemma PurchaseIsRestockOfMinusOne(s: seq<Sweet>, id: string)
    ensures Purchased(s, id) == Restocked(s, id, -1)
  {
  }

  /** A purchase whose guard held keeps the invariant: stock never goes negative. */
  lemma PurchaseKeepsConsistent(s: seq<Sweet>, id: string)
    requires Consistent(s)
    requires CanPurchase(s, id)
    ensures Ids(Purchased(s, id)) == Ids(s)
    ensures Consistent(Purchased(s, id))
  {
  }

  /**
   * The guard looks only at the first item with the id but the update touches
   * every such item, so with a repeated id stock can go below zero.
   */
  lemma PurchaseWithRepeatedIdGoesNegative(a: Sweet, b: Sweet)
    requires a.id == b.id && a.quantity == 1 && b.quantity == 0
    ensures Stocked([a, b]) && CanPurchase([a, b], a.id)
    ensures Purchased([a, b], a.id)[1].quantity == -1
  {
  }

  /** Restocking by a non-negative amount keeps the invariant and the ids. */
  lemma RestockKeepsConsistent(s: seq<Sweet>, id: string, amount: int)
    requires Consistent(s)
    requires amount >= 0
    ensures Ids(Restocked(s, id, amount)) == Ids(s)
    ensures Consistent(Restocked(s, id, amount))
  {
  }

  /** Restocking adds `amount` to the stock of the items with the id and changes nothing else. */
  lemma RestockAdds(s: seq<Sweet>, id: string, amount: int, i: int)
    requires 0 <= i < |s|
    ensures |Restocked(s, id, amount)| == |s|
    ensures Restocked(s, id, amount)[i].quantity == s[i].quantity + (if s[i].id == id then amount else 0)
    ensures WithoutId(Restocked(s, id, amount)[i]).(quantity := 0) == WithoutId(s[i]).(quantity := 0)
    ensures Restocked(s, id, amount)[i].id == s[i].id
  {
  }

  // ---- the store ------------------------------------------------------------------

  /** `SweetsProvider`: the `sweets` state and the five operations that replace it. */
  class SweetStore {
    var sweets: seq<Sweet>

    /** The provider starts from some initial catalogue (the mock data). */
    constructor (initial: seq<Sweet>)
      ensures sweets == initial
    {
      sweets := initial;
    }

    /** `addSweet`: `id` stands for the clock value the source reads. */
    method AddSweet(f: SweetFields, id: string)
      modifies this
      ensures sweets == old(sweets) + [WithId(f, id)]
      ensures Consistent(old(sweets)) && id !in Ids(old(sweets)) && f.quantity >= 0 ==> Consistent(sweets)
    {
      if Consistent(sweets) && id !in Ids(sweets) && f.quantity >= 0 {
        AddKeepsConsistent(sweets, f, id);
      }
      sweets := Added(sweets, f, id);
    }

    /** `updateSweet` */
    method UpdateSweet(id: string, p: Patch)
      modifies this
      ensures sweets == Updated(old(sweets), id, p)
      ensures |sweets| == |old(sweets)|
      ensures Consistent(old(sweets)) && KeepsId(p, id) && (p.quantity.None? || p.quantity.value >= 0)
              ==> Consistent(sweets) && Ids(sweets) == Ids(old(sweets))
    {
      if Consistent(sweets) && KeepsId(p, id) && (p.quantity.None? || p.quantity.value >= 0) {
        UpdateKeepsConsistent(sweets, id, p);
      }
      sweets := Updated(sweets, id, p);
    }

    /** `deleteSweet` */
    method DeleteSweet(id: string)
      modifies this
      ensures sweets == Deleted(old(sweets), id)
      ensures forall i :: 0 <= i < |sweets| ==> sweets[i].id != id
      ensures Consistent(old(sweets)) ==> Consistent(sweets)
    {
      forall i | 0 <= i < |Deleted(sweets, id)| ensures Deleted(sweets, id)[i].id != id {
        DeleteRemovesOnlyId(sweets, id, Deleted(sweets, id)[i]);
      }
      if Consistent(sweets) {
        DeleteKeepsConsistent(sweets, id);
      }
      sweets := Deleted(sweets, id);
    }

    /** `purchaseSweet`: check the first item with the id, then take one unit. */
    method PurchaseSweet(id: string) returns (ok: bool)
      modifies this
      ensures ok == CanPurchase(old(sweets), id)
      ensures sweets == if ok then Purchased(old(sweets), id) else old(sweets)
      ensures Consistent(old(sweets)) ==> Consistent(sweets)
    {
      var found := Find(sweets, id);
      if found.None? || sweets[found.value].quantity <= 0 {
        return false;
      }
      if Consistent(sweets) {
        PurchaseKeepsConsistent(sweets, id);
      }
      sweets := Purchased(sweets, id);
      return true;
    }

    /** `restockSweet`: no guard on the amount. */
    method RestockSweet(id: string, amount: int)
      modifies this
      ensures sweets == Restocked(old(sweets), id, amount)
      ensures Consistent(old(sweets)) && amount >= 0 ==> Consistent(sweets)
    {
      if Consistent(sweets) && amount >= 0 {
        RestockKeepsConsistent(sweets, id, amount);
      }
      sweets := Restocked(sweets, id, amount);
    }
  }
}
