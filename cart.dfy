/**
 * The shopping cart both browser scripts keep: a plain object from product
 * id to count. Its keys are the decimal numerals of product ids, and a
 * JavaScript object enumerates such integer-like keys in ascending numeric
 * order, so `Object.keys(cart)` is modelled as the strictly increasing
 * sequence `ids`, with the counts in a map beside it. Counts stay at least
 * one: an entry is created at 1 and deleted as soon as it drops to 0 or below.
 */
module Cart {
  import opened Common
  import opened Text

  /** A product as the page holds it; `cat` is the category's lower-cased name. */
  datatype CatalogItem = CatalogItem(id: nat, name: string, price: int, cat: string)

  /** The object key under which the cart stores product `id`: its decimal numeral. */
  function Key(id: nat): string {
    NatToString(id)
  }

  /**
   * Keys are read back as ids: `parseInt(key)` gives the id, and so does the
   * loose comparison `p.id == key`, which converts the key with `Number`.
   */
  lemma KeyRoundTrip(id: nat)
    ensures ParseIntPrefix(Key(id)) == Some(id)
    ensures StringToNumber(Key(id)) == Some(id)
  {
    ParseIntPrefixOfNumeral(id, []);
    assert NatToString(id) + [] == NatToString(id);
    ParseNatToString(id);
    var s := Key(id);
    assert !IsJsSpace(s[0]) && !IsJsSpace(s[|s| - 1]);
    JsTrimNoBlanks(s);
  }

  /** A string with no blank at either end is its own trim. */
  lemma JsTrimNoBlanks(s: string)
    requires s != [] && !IsJsSpace(s[0]) && !IsJsSpace(s[|s| - 1])
    ensures JsTrim(s) == s
  {
    var i, j := TrimIsSlice(s, IsJsSpace);
    assert i == 0 && j == |s|;
  }

  /** The position of the first catalog entry with that id. */
  function FindIndex(catalog: seq<CatalogItem>, id: nat): (r: Option<nat>)
    ensures r.Some? ==> r.value < |catalog| && catalog[r.value].id == id
    ensures r.Some? ==> forall j :: 0 <= j < r.value ==> catalog[j].id != id
    ensures r.None? ==> forall i :: 0 <= i < |catalog| ==> catalog[i].id != id
  {
    FirstWhere(catalog, (p: CatalogItem) => p.id == id)
  }

  /** `products.find(p => p.id == id)`: the first catalog entry with that id. */
  function Find(catalog: seq<CatalogItem>, id: nat): Option<CatalogItem> {
    match FindIndex(catalog, id)
    case Some(k) => Some(catalog[k])
    case None => None
  }

  /** What each unit in the cart is worth: one (the badge), or the product's price (the total). */
  datatype Weighting = Units | Prices(catalog: seq<CatalogItem>)

  function Weight(w: Weighting, id: nat): int {
    match w
    case Units => 1
    case Prices(catalog) =>
      match Find(catalog, id)
      case Some(p) => p.price
      case None => 0
  }

  /** One key's share: weight × count, nothing for a key without an entry. */
  function Entry(counts: map<nat, int>, w: Weighting, id: nat): int {
    if id in counts then Weight(w, id) * counts[id] else 0
  }

  /** Σ over `ids` of each entry's share. */
  function Total(ids: seq<nat>, counts: map<nat, int>, w: Weighting): int {
    if ids == [] then 0 else Total(ids[..|ids| - 1], counts, w) + Entry(counts, w, ids[|ids| - 1])
  }

  /** `Object.values(cart).reduce((a, b) => a + b, 0)`: the number on the badge. */
  function BadgeCount(ids: seq<nat>, counts: map<nat, int>): int {
    Total(ids, counts, Units)
  }

  /** With every count at least one, the badge shows at least the number of entries. */
  lemma {:induction false} PositiveTotal(ids: seq<nat>, counts: map<nat, int>)
    requires forall i :: 0 <= i < |ids| ==> ids[i] in counts && counts[ids[i]] >= 1
    ensures Total(ids, counts, Units) >= |ids|
  {
    if ids != [] {
      PositiveTotal(ids[..|ids| - 1], counts);
    }
  }

  /** The cart total: Σ price × count over the ids found in the catalog; an id not found adds 0. */
  function CartTotal(catalog: seq<CatalogItem>, ids: seq<nat>, counts: map<nat, int>): int {
    Total(ids, counts, Prices(catalog))
  }

  lemma {:induction false} TotalAppend(a: seq<nat>, b: seq<nat>, counts: map<nat, int>, w: Weighting)
    ensures Total(a + b, counts, w) == Total(a, counts, w) + Total(b, counts, w)
    decreases |b|
  {
    if b == [] {
      assert a + b == a;
    } else {
      var b' := b[..|b| - 1];
      assert (a + b)[..|a + b| - 1] == a + b';
      TotalAppend(a, b', counts, w);
    }
  }

  /** Entries for keys outside `ids` do not matter to the total over `ids`. */
  lemma {:induction false} TotalFrame(ids: seq<nat>, counts: map<nat, int>, counts': map<nat, int>, w: Weighting)
    requires forall x :: x in ids ==> (x in counts <==> x in counts') && (x in counts ==> counts[x] == counts'[x])
    ensures Total(ids, counts, w) == Total(ids, counts', w)
  {
    if ids != [] {
      TotalFrame(ids[..|ids| - 1], counts, counts', w);
    }
  }

  predicate Increasing(s: seq<nat>) {
    forall i, j :: 0 <= i < j < |s| ==> s[i] < s[j]
  }

  lemma MulDistrib(a: int, b: int, c: int)
    ensures a * (b + c) == a * b + a * c
  {
  }

  /** In an increasing sequence a key occurs once: not before its position, not after. */
  lemma IncreasingUnique(s: seq<nat>, i: nat)
    requires Increasing(s) && i < |s|
    ensures s[i] !in s[..i] && s[i] !in s[i + 1..]
  {
  }

  /** Removing one key keeps the sequence increasing and drops exactly that key. */
  lemma IncreasingRemove(s: seq<nat>, i: nat)
    requires Increasing(s) && i < |s|
    ensures Increasing(s[..i] + s[i + 1..])
    ensures forall x :: x in s[..i] + s[i + 1..] <==> x in s && x != s[i]
  {
    var rest := s[..i] + s[i + 1..];
    assert forall k :: 0 <= k < |rest| ==> rest[k] == s[if k < i then k else k + 1];
    IncreasingUnique(s, i);
  }

  /** `ids` with `id` put in its place in ascending order (once). */
  function Insert(ids: seq<nat>, id: nat): (r: seq<nat>)
    requires Increasing(ids)
    ensures Increasing(r)
    ensures forall x :: x in r <==> x in ids || x == id
    ensures |r| == |ids| + (if id in ids then 0 else 1)
  {
    if id in ids then ids
    else
      var pos := InsertPosition(ids, id);
      SplitInsert(ids, id, pos);
      ids[..pos] + [id] + ids[pos..]
  }

  /** A key put between the smaller and the larger keys keeps the sequence increasing and adds only itself. */
  lemma SplitInsert(ids: seq<nat>, id: nat, pos: nat)
    requires Increasing(ids) && pos <= |ids|
    requires forall k :: 0 <= k < pos ==> ids[k] < id
    requires forall k :: pos <= k < |ids| ==> ids[k] > id
    ensures Increasing(ids[..pos] + [id] + ids[pos..])
    ensures forall x :: x in ids[..pos] + [id] + ids[pos..] <==> x in ids || x == id
  {
    var r := ids[..pos] + [id] + ids[pos..];
    forall i, j | 0 <= i < j < |r|
      ensures r[i] < r[j]
    {
      var ri := if i < pos then ids[i] else if i == pos then id else ids[i - 1];
      var rj := if j < pos then ids[j] else if j == pos then id else ids[j - 1];
      assert r[i] == ri && r[j] == rj;
    }
    assert ids == ids[..pos] + ids[pos..];
  }

  /** Inserting a key not yet there puts it right before the first larger key. */
  lemma InsertAt(ids: seq<nat>, id: nat, pos: nat)
    requires Increasing(ids) && pos <= |ids|
    requires forall k :: 0 <= k < pos ==> ids[k] < id
    requires forall k :: pos <= k < |ids| ==> ids[k] > id
    ensures Insert(ids, id) == ids[..pos] + [id] + ids[pos..]
  {
    assert id !in ids by {
      forall k | 0 <= k < |ids|
        ensures ids[k] != id
      {
        if k < pos {
          assert ids[k] < id;
        }
      }
    }
    var p := InsertPosition(ids, id);
    assert pos < |ids| ==> ids[pos] > id;
    assert p < |ids| ==> ids[p] > id;
    assert p == pos;
  }

  /** A key's share is its own: changing its count changes the total by the difference. */
  lemma TotalUpdate(ids: seq<nat>, counts: map<nat, int>, w: Weighting, i: nat, v: int)
    requires i < |ids| && ids[i] in counts && ids[i] !in ids[..i] && ids[i] !in ids[i + 1..]
    ensures Total(ids, counts[ids[i] := v], w) == Total(ids, counts, w) - Weight(w, ids[i]) * counts[ids[i]] + Weight(w, ids[i]) * v
  {
    var id := ids[i];
    var counts' := counts[id := v];
    assert ids == ids[..i] + [id] + ids[i + 1..];
    TotalAppend(ids[..i] + [id], ids[i + 1..], counts, w);
    TotalAppend(ids[..i], [id], counts, w);
    TotalAppend(ids[..i] + [id], ids[i + 1..], counts', w);
    TotalAppend(ids[..i], [id], counts', w);
    TotalFrame(ids[..i], counts, counts', w);
    TotalFrame(ids[i + 1..], counts, counts', w);
    assert Total([id], counts, w) == Weight(w, id) * counts[id];
    assert Total([id], counts', w) == Weight(w, id) * v;
  }

  /** Removing a key and its entry takes exactly its share off the total. */
  lemma TotalRemove(ids: seq<nat>, counts: map<nat, int>, w: Weighting, i: nat)
    requires i < |ids| && ids[i] in counts && ids[i] !in ids[..i] && ids[i] !in ids[i + 1..]
    ensures Total(ids[..i] + ids[i + 1..], counts - {ids[i]}, w)
         == Total(ids, counts, w) - Weight(w, ids[i]) * counts[ids[i]]
  {
    var id := ids[i];
    var counts' := counts - {id};
    assert ids == ids[..i] + [id] + ids[i + 1..];
    TotalAppend(ids[..i] + [id], ids[i + 1..], counts, w);
    TotalAppend(ids[..i], [id], counts, w);
    TotalAppend(ids[..i], ids[i + 1..], counts', w);
    TotalFrame(ids[..i], counts, counts', w);
    TotalFrame(ids[i + 1..], counts, counts', w);
    assert Total([id], counts, w) == Weight(w, id) * counts[id];
  }

  /** Adding a new key with its entry adds exactly its share. */
  lemma TotalInsert(ids: seq<nat>, counts: map<nat, int>, w: Weighting, pos: nat, id: nat, v: int)
    requires pos <= |ids| && id !in ids
    ensures Total(ids[..pos] + [id] + ids[pos..], counts[id := v], w) == Total(ids, counts, w) + Weight(w, id) * v
  {
    var counts' := counts[id := v];
    assert ids == ids[..pos] + ids[pos..];
    TotalAppend(ids[..pos], ids[pos..], counts, w);
    TotalAppend(ids[..pos] + [id], ids[pos..], counts', w);
    TotalAppend(ids[..pos], [id], counts', w);
    TotalFrame(ids[..pos], counts, counts', w);
    TotalFrame(ids[pos..], counts, counts', w);
    assert Total([id], counts', w) == Weight(w, id) * v;
  }

  /** The page's product grid for a category button: everything for "all", else the products of that category, in order. */
  function FilterItems(catalog: seq<CatalogItem>, cat: string): (r: seq<CatalogItem>)
    ensures cat == "all" ==> r == catalog
    ensures cat != "all" ==> forall p :: p in r <==> p in catalog && p.cat == cat
    ensures |r| <= |catalog|
  {
    if cat == "all" then catalog else Matching(catalog, cat)
  }

  /** `products.filter(p => p.cat === cat)`. */
  function Matching(catalog: seq<CatalogItem>, cat: string): (r: seq<CatalogItem>)
    ensures forall p :: p in r <==> p in catalog && p.cat == cat
    ensures |r| <= |catalog|
  {
    if catalog == [] then []
    else
      var rest := Matching(catalog[..|catalog| - 1], cat);
      var last := catalog[|catalog| - 1];
      assert forall p :: p in catalog <==> p in catalog[..|catalog| - 1] || p == last;
      if last.cat == cat then rest + [last] else rest
  }

  /** Filtering keeps catalog order: the filter of a concatenation is the concatenation of the filters. */
  lemma {:induction false} MatchingAppend(a: seq<CatalogItem>, b: seq<CatalogItem>, cat: string)
    ensures Matching(a + b, cat) == Matching(a, cat) + Matching(b, cat)
    decreases |b|
  {
    if b == [] {
      assert a + b == a;
    } else {
      var b' := b[..|b| - 1];
      assert (a + b)[..|a + b| - 1] == a + b';
      MatchingAppend(a, b', cat);
    }
  }

  /** The keys are enumerated in ascending order, each once, and they are exactly the entries. */
  predicate WellFormed(ids: seq<nat>, counts: map<nat, int>) {
    Increasing(ids) && (forall x :: x in ids ==> x in counts) && (forall x :: x in counts ==> x in ids)
  }

  /** Every stored count is at least one. */
  predicate AllPositive(counts: map<nat, int>) {
    forall x :: x in counts ==> counts[x] >= 1
  }

  /** The position of a key in the key sequence. */
  function IndexOf(ids: seq<nat>, id: nat): (r: nat)
    requires id in ids
    ensures r < |ids| && ids[r] == id
  {
    if ids[0] == id then 0 else 1 + IndexOf(ids[1..], id)
  }

  /** The counts after `cart[id] = (cart[id] || 0) + 1`. */
  function AddOne(counts: map<nat, int>, id: nat): map<nat, int> {
    counts[id := (if id in counts then counts[id] else 0) + 1]
  }

  /** Adding one unit keeps the cart well formed: the key is inserted in its place if it is new. */
  lemma AddOneWellFormed(ids: seq<nat>, counts: map<nat, int>, id: nat)
    requires WellFormed(ids, counts)
    ensures WellFormed(Insert(ids, id), AddOne(counts, id))
  {
  }

  /** Adding one unit keeps every count at least one. */
  lemma AddOnePositive(counts: map<nat, int>, id: nat)
    requires AllPositive(counts)
    ensures AllPositive(AddOne(counts, id))
  {
  }

  /**
   * Adding one unit makes every total grow by exactly that unit's weight:
   * the badge by one, the cart total by the product's price.
   */
  lemma AddOneTotal(ids: seq<nat>, counts: map<nat, int>, id: nat, w: Weighting)
    requires WellFormed(ids, counts)
    ensures Total(Insert(ids, id), AddOne(counts, id), w) == Total(ids, counts, w) + Weight(w, id)
  {
    if id in counts {
      assert id in ids;
      InsertPresent(ids, id);
      var i := IndexOf(ids, id);
      var c := counts[id];
      assert AddOne(counts, id) == counts[ids[i] := c + 1];
      IncreasingUnique(ids, i);
      TotalUpdate(ids, counts, w, i, c + 1);
      MulDistrib(Weight(w, id), c, 1);
    } else {
      assert id !in ids;
      var pos := InsertPosition(ids, id);
      assert Insert(ids, id) == ids[..pos] + [id] + ids[pos..];
      assert AddOne(counts, id) == counts[id := 1];
      TotalInsert(ids, counts, w, pos, id, 1);
    }
  }

  /** The number of keys below `id`: where a new key `id` goes. */
  function InsertPosition(ids: seq<nat>, id: nat): (pos: nat)
    requires Increasing(ids) && id !in ids
    ensures pos <= |ids|
    ensures forall k :: 0 <= k < pos ==> ids[k] < id
    ensures forall k :: pos <= k < |ids| ==> ids[k] > id
  {
    if ids == [] || ids[0] > id then 0 else 1 + InsertPosition(ids[1..], id)
  }

  /** The counts after `cart[id] += delta; if (cart[id] <= 0) delete cart[id]`. */
  function Adjusted(counts: map<nat, int>, id: nat, delta: int): map<nat, int>
    requires id in counts
  {
    if counts[id] + delta > 0 then counts[id := counts[id] + delta] else counts - {id}
  }

  /** The keys after the same step: the key goes when its entry does. */
  function AdjustedIds(ids: seq<nat>, counts: map<nat, int>, id: nat, delta: int): seq<nat>
    requires id in counts && id in ids
  {
    if counts[id] + delta > 0 then ids
    else
      var i := IndexOf(ids, id);
      ids[..i] + ids[i + 1..]
  }

  /** Changing a count keeps the cart well formed: the key goes exactly when its entry does. */
  lemma AdjustWellFormed(ids: seq<nat>, counts: map<nat, int>, id: nat, delta: int)
    requires WellFormed(ids, counts) && id in counts
    ensures WellFormed(AdjustedIds(ids, counts, id, delta), Adjusted(counts, id, delta))
  {
    var counts' := Adjusted(counts, id, delta);
    if counts[id] + delta > 0 {
      assert counts'.Keys == counts.Keys;
    } else {
      assert id in ids;
      var i := IndexOf(ids, id);
      var rest := ids[..i] + ids[i + 1..];
      IncreasingRemove(ids, i);
      assert counts'.Keys == counts.Keys - {id};
      assert forall x :: x in rest <==> x in counts';
    }
  }

  /** Changing a count keeps every count at least one: an entry that would drop to 0 or below is deleted. */
  lemma AdjustPositive(counts: map<nat, int>, id: nat, delta: int)
    requires AllPositive(counts) && id in counts
    ensures AllPositive(Adjusted(counts, id, delta))
    ensures id in Adjusted(counts, id, delta) <==> counts[id] + delta > 0
  {
  }

  /** A total changes by the weight of the units added, or loses the whole entry's share when it is deleted. */
  lemma AdjustTotal(ids: seq<nat>, counts: map<nat, int>, id: nat, delta: int, w: Weighting)
    requires WellFormed(ids, counts) && id in counts
    ensures Total(AdjustedIds(ids, counts, id, delta), Adjusted(counts, id, delta), w)
         == if counts[id] + delta > 0 then Total(ids, counts, w) + Weight(w, id) * delta
            else Total(ids, counts, w) - Weight(w, id) * counts[id]
  {
    assert id in ids;
    var i := IndexOf(ids, id);
    IncreasingUnique(ids, i);
    if counts[id] + delta > 0 {
      assert AdjustedIds(ids, counts, id, delta) == ids;
      assert Adjusted(counts, id, delta) == counts[ids[i] := counts[id] + delta];
      UpdateByDelta(ids, counts, w, i, delta);
    } else {
      assert AdjustedIds(ids, counts, id, delta) == ids[..i] + ids[i + 1..];
      assert Adjusted(counts, id, delta) == counts - {ids[i]};
      TotalRemove(ids, counts, w, i);
    }
  }

  /** Adding `delta` units to the entry at `i` adds `delta` times its weight. */
  lemma UpdateByDelta(ids: seq<nat>, counts: map<nat, int>, w: Weighting, i: nat, delta: int)
    requires i < |ids| && ids[i] in counts && ids[i] !in ids[..i] && ids[i] !in ids[i + 1..]
    ensures Total(ids, counts[ids[i] := counts[ids[i]] + delta], w) == Total(ids, counts, w) + Weight(w, ids[i]) * delta
  {
    var c, W := counts[ids[i]], Weight(w, ids[i]);
    TotalUpdate(ids, counts, w, i, c + delta);
    MulDistrib(W, c, delta);
  }

  /**
   * The cart object. `ids` is `Object.keys(cart)` as numbers, `counts` the
   * values. Both scripts' `addToCart`, the shared part of their `changeQty`
   * and the reset after checkout are its methods.
   */
  class ShoppingCart {
    var ids: seq<nat>
    var counts: map<nat, int>

    ghost predicate Valid()
      reads this
    {
      WellFormed(ids, counts)
    }

    /** `let cart = {}`. */
    constructor ()
      ensures Valid() && AllPositive(counts) && ids == [] && counts == map[]
    {
      ids, counts := [], map[];
    }

    /**
     * `addToCart(id)`: `cart[id] = (cart[id] || 0) + 1`. The entry grows by
     * one (a new one starts at 1 and takes its place among the keys) and
     * nothing else changes.
     */
    method AddToCart(id: nat)
      requires Valid()
      modifies this
      ensures Valid()
      ensures counts == AddOne(old(counts), id) && ids == Insert(old(ids), id)
    {
      AddOneWellFormed(ids, counts, id);
      ids := Insert(ids, id);
      counts := AddOne(counts, id);
    }

    /**
     * The common part of `changeQty(id, delta)` for a key in the cart:
     * `cart[id] += delta`, then the entry is deleted if it is 0 or less.
     */
    method Adjust(id: nat, delta: int)
      requires Valid() && id in counts
      modifies this
      ensures Valid()
      ensures counts == Adjusted(old(counts), id, delta)
      ensures ids == AdjustedIds(old(ids), old(counts), id, delta)
    {
      AdjustWellFormed(ids, counts, id, delta);
      ids := AdjustedIds(ids, counts, id, delta);
      counts := Adjusted(counts, id, delta);
    }

    /** `cart = {}` after an accepted order. */
    method Clear()
      modifies this
      ensures Valid() && ids == [] && counts == map[]
    {
      ids, counts := [], map[];
    }
  }

  /** A key already in the cart is not inserted again. */
  lemma InsertPresent(ids: seq<nat>, id: nat)
    requires Increasing(ids) && id in ids
    ensures Insert(ids, id) == ids
  {
  }

  /** With every count positive, the badge count is positive (the badge shows) exactly when the cart has an entry. */
  lemma BadgeShownIffNonEmpty(ids: seq<nat>, counts: map<nat, int>)
    requires forall i :: 0 <= i < |ids| ==> ids[i] in counts && counts[ids[i]] >= 1
    ensures BadgeCount(ids, counts) > 0 <==> ids != []
  {
    PositiveTotal(ids, counts);
  }

  /** What `updateBadge` (in both scripts) does to the badge: show the count, or hide it. */
  datatype Badge = Hidden | Shown(count: int)

  /**
   * `updateBadge`: the badge shows the sum of the counts when it is positive
   * and is hidden otherwise. On a well-formed cart the shown number is the
   * sum over the stored entries, whatever order they are taken in; with
   * every count at least one the badge is hidden exactly when the cart is
   * empty, and shows at least one per entry.
   */
  function UpdateBadge(ids: seq<nat>, counts: map<nat, int>): (b: Badge)
    ensures b.Shown? ==> b.count > 0
    ensures WellFormed(ids, counts) && b.Shown? ==> b.count == SumCounts(counts)
    ensures WellFormed(ids, counts) && AllPositive(counts) ==> (b == Hidden <==> ids == [])
    ensures WellFormed(ids, counts) && AllPositive(counts) && b.Shown? ==> b.count >= |ids|
  {
    var n := BadgeCount(ids, counts);
    BadgeFacts(ids, counts);
    if n > 0 then Shown(n) else Hidden
  }

  /** The facts `UpdateBadge` promises about the count, for the carts they hold on. */
  lemma BadgeFacts(ids: seq<nat>, counts: map<nat, int>)
    ensures WellFormed(ids, counts) ==> BadgeCount(ids, counts) == SumCounts(counts)
    ensures WellFormed(ids, counts) && AllPositive(counts) ==>
      (BadgeCount(ids, counts) > 0 <==> ids != []) && BadgeCount(ids, counts) >= |ids|
  {
    if WellFormed(ids, counts) {
      BadgeIsSumOfCounts(ids, counts);
      if AllPositive(counts) {
        BadgeShownIffNonEmpty(ids, counts);
        PositiveTotal(ids, counts);
      }
    }
  }

  /** `Object.values(cart).reduce((a, b) => a + b, 0)` over the entries, taken in any order. */
  ghost function SumCounts(counts: map<nat, int>): int
    decreases counts.Keys
  {
    if counts.Keys == {} then 0
    else
      var k :| k in counts;
      counts[k] + SumCounts(counts - {k})
  }

  /** The sum does not depend on which entry is taken first. */
  lemma {:induction false} SumCountsRemove(counts: map<nat, int>, x: nat)
    requires x in counts
    ensures SumCounts(counts) == counts[x] + SumCounts(counts - {x})
    decreases counts.Keys
  {
    var y :| y in counts && SumCounts(counts) == counts[y] + SumCounts(counts - {y});
    if y != x {
      SumCountsRemove(counts - {y}, x);
      SumCountsRemove(counts - {x}, y);
      assert counts - {y} - {x} == counts - {x} - {y};
    }
  }

  /** Summing the counts key by key in the cart's order gives the sum over the entries. */
  lemma {:induction false} BadgeIsSumOfCounts(ids: seq<nat>, counts: map<nat, int>)
    requires WellFormed(ids, counts)
    ensures BadgeCount(ids, counts) == SumCounts(counts)
    decreases |ids|
  {
    if ids == [] {
      assert counts.Keys == {};
    } else {
      var n := |ids| - 1;
      var rest := counts - {ids[n]};
      DropLast(ids, counts);
      BadgeIsSumOfCounts(ids[..n], rest);
      TotalFrame(ids[..n], counts, rest, Units);
      SumCountsRemove(counts, ids[n]);
    }
  }

  /** The cart without its last key is well formed once that key's entry is dropped too. */
  lemma DropLast(ids: seq<nat>, counts: map<nat, int>)
    requires WellFormed(ids, counts) && ids != []
    ensures var n := |ids| - 1;
      && ids[n] in counts
      && WellFormed(ids[..n], counts - {ids[n]})
      && BadgeCount(ids, counts) == BadgeCount(ids[..n], counts) + counts[ids[n]]
  {
    var n := |ids| - 1;
    var init, last := ids[..n], ids[n];
    assert last in ids;
    forall x | x in init
      ensures x in ids && x != last
    {
      var k :| 0 <= k < n && init[k] == x;
      assert ids[k] == x;
    }
    assert forall x :: x in ids && x != last ==> x in init by {
      assert ids == init + [last];
    }
  }
}
