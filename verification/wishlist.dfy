/**
 * The inquiry wishlist of `useWishlist`: a list of items persisted as JSON,
 * re-read from storage before every change. Each operation is modelled as a
 * transform of the list read back from storage; persisting and the
 * cross-page change event are not modelled beyond `Persist`/`Load`.
 */
module Wishlist {
  import opened Wrappers
  import opened JsText
  import opened JsNumber

  datatype Item = Item(productId: Num, name: string, price: Num, image: string, quantity: Num, addedAt: Num)

  /** A JSON value as `JSON.parse` yields it in an item field (nested arrays are not modelled). */
  datatype Json = JNull | JBool(b: bool) | JNum(n: real) | JStr(s: string) | JObj

  /**
   * One element of the stored array. A field is None when it is absent; an
   * element that is not an object reads as every field absent.
   */
  datatype RawItem = RawItem(
    productId: Option<Json>, name: Option<Json>, price: Option<Json>,
    image: Option<Json>, quantity: Option<Json>, addedAt: Option<Json>)

  /**
   * What `getStorageSync('wishlist')` holds: nothing (a falsy value), text
   * that `JSON.parse` rejects, a value that is not an array, or an array.
   */
  datatype Stored = Falsy | Unparsable | NotArray | Array(elems: seq<RawItem>)

  /** `Number(x)` for a field value; `Number(undefined)` is NaN, `Number(null)` is 0. */
  function JsonNumber(j: Option<Json>): Num {
    match j
    case None => NaN
    case Some(JNull) => Finite(0.0)
    case Some(JBool(b)) => Finite(if b then 1.0 else 0.0)
    case Some(JNum(n)) => Finite(n)
    case Some(JStr(s)) => ToNumber(s)
    case Some(JObj) => NaN
  }

  predicate Nullish(j: Option<Json>) {
    j.None? || j == Some(JNull)
  }

  /** `Number(x ?? d)`. */
  function NumberOr(j: Option<Json>, d: Num): (r: Num)
    ensures Nullish(j) ==> r == d
    ensures j.Some? && j.value.JNum? ==> r == Finite(j.value.n)
  {
    if Nullish(j) then d else JsonNumber(j)
  }

  /**
   * `String(x ?? '')`; `numText` stands for the host's rendering of a
   * number, which the model does not spell out.
   */
  function StringOr(j: Option<Json>, numText: real -> string): (r: string)
    ensures Nullish(j) ==> r == ""
    ensures j.Some? && j.value.JStr? ==> r == j.value.s
  {
    match j
    case None => ""
    case Some(JNull) => ""
    case Some(JBool(b)) => if b then "true" else "false"
    case Some(JNum(n)) => numText(n)
    case Some(JStr(s)) => s
    case Some(JObj) => "[object Object]"
  }

  /** The `map` step of `loadWishlistFromStorage`: missing fields take their defaults. */
  function Decode(e: RawItem, now: real, numText: real -> string): (r: Item)
    ensures r.productId == JsonNumber(e.productId)
    ensures Nullish(e.price) ==> r.price == Finite(0.0)
    ensures Nullish(e.quantity) ==> r.quantity == Finite(1.0)
    ensures Nullish(e.addedAt) ==> r.addedAt == Finite(now)
  {
    Item(JsonNumber(e.productId), StringOr(e.name, numText), NumberOr(e.price, Finite(0.0)),
         StringOr(e.image, numText), NumberOr(e.quantity, Finite(1.0)), NumberOr(e.addedAt, Finite(now)))
  }

  /** The `filter` step: only a finite, positive product id survives. */
  predicate ValidId(id: Num) {
    id.Finite? && id.v > 0.0
  }

  /**
   * The `map` then `filter` of `loadWishlistFromStorage`: the decoded
   * elements with a valid product id. Nothing else is produced, every
   * element with a valid id is kept (`DecodeAllComplete`), and the order is
   * that of the stored array (`DecodeAllConcat`).
   */
  function DecodeAll(es: seq<RawItem>, now: real, numText: real -> string): (r: seq<Item>)
    ensures |r| <= |es|
    ensures forall i :: 0 <= i < |r| ==> ValidId(r[i].productId)
    ensures forall i :: 0 <= i < |r| ==> exists j :: 0 <= j < |es| && r[i] == Decode(es[j], now, numText)
  {
    if es == [] then []
    else
      var d := Decode(es[0], now, numText);
      var rest := DecodeAll(es[1..], now, numText);
      FromTail(es, now, numText, rest);
      if ValidId(d.productId) then
        var r := [d] + rest;
        assert r[0] == Decode(es[0], now, numText);
        assert forall i :: 1 <= i < |r| ==> r[i] == rest[i - 1];
        r
      else rest
  }

  /** Decodings of the tail's elements are decodings of elements of the whole array. */
  lemma FromTail(es: seq<RawItem>, now: real, numText: real -> string, rest: seq<Item>)
    requires es != []
    requires forall i :: 0 <= i < |rest| ==> exists j :: 0 <= j < |es[1..]| && rest[i] == Decode(es[1..][j], now, numText)
    ensures forall i :: 0 <= i < |rest| ==> exists j :: 0 <= j < |es| && rest[i] == Decode(es[j], now, numText)
  {
    forall i | 0 <= i < |rest|
      ensures exists j :: 0 <= j < |es| && rest[i] == Decode(es[j], now, numText)
    {
      var j :| 0 <= j < |es[1..]| && rest[i] == Decode(es[1..][j], now, numText);
      assert es[1..][j] == es[j + 1];
    }
  }

  /** Every stored element with a valid product id is among the loaded items. */
  lemma {:induction false} DecodeAllComplete(es: seq<RawItem>, now: real, numText: real -> string)
    ensures forall j :: 0 <= j < |es| && ValidId(Decode(es[j], now, numText).productId) ==>
              Decode(es[j], now, numText) in DecodeAll(es, now, numText)
    decreases |es|
  {
    if es != [] {
      var d := Decode(es[0], now, numText);
      var rest := DecodeAll(es[1..], now, numText);
      var head := if ValidId(d.productId) then [d] else [];
      assert DecodeAll(es, now, numText) == head + rest;
      DecodeAllComplete(es[1..], now, numText);
      forall j | 0 <= j < |es| && ValidId(Decode(es[j], now, numText).productId)
        ensures Decode(es[j], now, numText) in head + rest
      {
        if j > 0 {
          assert es[j] == es[1..][j - 1];
        }
      }
    }
  }

  /** Decoding and filtering distributes over concatenation, so the kept items keep their stored order. */
  lemma {:induction false} DecodeAllConcat(a: seq<RawItem>, b: seq<RawItem>, now: real, numText: real -> string)
    ensures DecodeAll(a + b, now, numText) == DecodeAll(a, now, numText) + DecodeAll(b, now, numText)
    decreases |a|
  {
    if a != [] {
      var d := Decode(a[0], now, numText);
      var head := if ValidId(d.productId) then [d] else [];
      assert (a + b)[0] == a[0];
      assert (a + b)[1..] == a[1..] + b;
      assert DecodeAll(a + b, now, numText) == head + DecodeAll(a[1..] + b, now, numText);
      assert DecodeAll(a, now, numText) == head + DecodeAll(a[1..], now, numText);
      DecodeAllConcat(a[1..], b, now, numText);
      assert head + (DecodeAll(a[1..], now, numText) + DecodeAll(b, now, numText))
          == (head + DecodeAll(a[1..], now, numText)) + DecodeAll(b, now, numText);
    } else {
      assert a + b == b;
    }
  }

  /** The `map` step alone: every stored element decoded, in order. */
  function DecodeEach(es: seq<RawItem>, now: real, numText: real -> string): (r: seq<Item>)
    ensures |r| == |es|
    ensures forall i :: 0 <= i < |es| ==> r[i] == Decode(es[i], now, numText)
  {
    seq(|es|, i requires 0 <= i < |es| => Decode(es[i], now, numText))
  }

  /** When every stored element has a valid product id, nothing is dropped: the filter keeps the whole map. */
  lemma {:induction false} DecodeAllKeepsValid(es: seq<RawItem>, now: real, numText: real -> string)
    requires forall j :: 0 <= j < |es| ==> ValidId(Decode(es[j], now, numText).productId)
    ensures DecodeAll(es, now, numText) == DecodeEach(es, now, numText)
    decreases |es|
  {
    if es != [] {
      var d := Decode(es[0], now, numText);
      assert ValidId(d.productId);
      assert forall j :: 0 <= j < |es[1..]| ==> es[1..][j] == es[j + 1];
      assert DecodeAll(es, now, numText) == [d] + DecodeAll(es[1..], now, numText);
      assert DecodeEach(es, now, numText) == [d] + DecodeEach(es[1..], now, numText) by {
        assert forall i :: 1 <= i < |es| ==> DecodeEach(es, now, numText)[i] == DecodeEach(es[1..], now, numText)[i - 1];
      }
      DecodeAllKeepsValid(es[1..], now, numText);
    }
  }

  /** Elements without a valid product id are all dropped. */
  lemma {:induction false} DecodeAllDropsInvalid(es: seq<RawItem>, now: real, numText: real -> string)
    requires forall j :: 0 <= j < |es| ==> !ValidId(Decode(es[j], now, numText).productId)
    ensures DecodeAll(es, now, numText) == []
    decreases |es|
  {
    if es != [] {
      assert !ValidId(Decode(es[0], now, numText).productId);
      assert forall j :: 0 <= j < |es[1..]| ==> es[1..][j] == es[j + 1];
      assert DecodeAll(es, now, numText) == [] + DecodeAll(es[1..], now, numText);
      DecodeAllDropsInvalid(es[1..], now, numText);
    }
  }

  /**
   * `loadWishlistFromStorage()`: anything but an array gives the empty list;
   * an array gives its decoded elements with a valid product id, in order.
   */
  function Load(st: Stored, now: real, numText: real -> string): (r: seq<Item>)
    ensures !st.Array? ==> r == []
    ensures st.Array? ==> |r| <= |st.elems|
    ensures forall i :: 0 <= i < |r| ==> ValidId(r[i].productId)
    ensures st.Array? ==> forall i :: 0 <= i < |r| ==>
              exists j :: 0 <= j < |st.elems| && r[i] == Decode(st.elems[j], now, numText)
    ensures st.Array? ==> forall j :: 0 <= j < |st.elems| && ValidId(Decode(st.elems[j], now, numText).productId) ==>
              Decode(st.elems[j], now, numText) in r
  {
    if st.Array? then
      DecodeAllComplete(st.elems, now, numText);
      DecodeAll(st.elems, now, numText)
    else []
  }

  /** `JSON.stringify` of a number: non-finite values become `null`. */
  function EncodeNum(n: Num): Json {
    if n.Finite? then JNum(n.v) else JNull
  }

  function Encode(it: Item): RawItem {
    RawItem(Some(EncodeNum(it.productId)), Some(JStr(it.name)), Some(EncodeNum(it.price)),
            Some(JStr(it.image)), Some(EncodeNum(it.quantity)), Some(EncodeNum(it.addedAt)))
  }

  /** `persistWishlist(items)`: the array written back to storage. */
  function Persist(items: seq<Item>): (r: Stored)
    ensures r.Array? && |r.elems| == |items|
    ensures forall i :: 0 <= i < |items| ==> r.elems[i] == Encode(items[i])
  {
    Array(seq(|items|, i requires 0 <= i < |items| => Encode(items[i])))
  }

  /** An item that survives a store/load cycle unchanged. */
  predicate Storable(it: Item) {
    ValidId(it.productId) && it.price.Finite? && it.quantity.Finite? && it.addedAt.Finite?
  }

  lemma {:induction false} DecodeAllPersisted(items: seq<Item>, now: real, numText: real -> string)
    requires forall i :: 0 <= i < |items| ==> Storable(items[i])
    ensures DecodeAll(Persist(items).elems, now, numText) == items
  {
    if items != [] {
      var es := Persist(items).elems;
      assert es[1..] == Persist(items[1..]).elems;
      assert Decode(es[0], now, numText) == items[0];
      DecodeAllPersisted(items[1..], now, numText);
    }
  }

  /** What is persisted reads back unchanged, as long as every item is storable. */
  lemma PersistLoad(items: seq<Item>, now: real, numText: real -> string)
    requires forall i :: 0 <= i < |items| ==> Storable(items[i])
    ensures Load(Persist(items), now, numText) == items
  {
    DecodeAllPersisted(items, now, numText);
  }

  /** A quantity that is no longer a finite number reads back as 1. */
  lemma ReloadedQuantity(it: Item, now: real, numText: real -> string)
    requires ValidId(it.productId) && !it.quantity.Finite?
    ensures var r := Load(Persist([it]), now, numText);
      |r| == 1 && r[0].quantity == Finite(1.0) && r[0].productId == it.productId && r[0].name == it.name
  {
    assert Persist([it]).elems[1..] == [];
  }

  // ---------------------------------------------------------------------------
  // Operations
  // ---------------------------------------------------------------------------

  /** The fields of a catalog product that the wishlist copies; `images` is None when it is not an array. */
  datatype Product = Product(id: Num, name: string, price: Num, images: Option<seq<string>>)

  /** `i.productId === id`. */
  predicate Matches(it: Item, id: Num) {
    StrictEq(it.productId, id)
  }

  predicate AnyMatch(items: seq<Item>, id: Num) {
    exists i :: 0 <= i < |items| && Matches(items[i], id)
  }

  /** At most one item per product id. */
  predicate UniqueIds(items: seq<Item>) {
    forall i, j :: 0 <= i < j < |items| ==> items[i].productId != items[j].productId
  }

  predicate FiniteQuantities(items: seq<Item>) {
    forall i :: 0 <= i < |items| ==> items[i].quantity.Finite?
  }

  /** Every item with product `id` gets quantity `q`; every other item is untouched. */
  function SetWhere(items: seq<Item>, id: Num, q: Item -> Num): (r: seq<Item>)
    ensures |r| == |items|
    ensures forall i :: 0 <= i < |items| ==>
      r[i] == if Matches(items[i], id) then items[i].(quantity := q(items[i])) else items[i]
  {
    if items == [] then []
    else [if Matches(items[0], id) then items[0].(quantity := q(items[0])) else items[0]]
         + SetWhere(items[1..], id, q)
  }

  function Increment(it: Item): Num {
    NumAdd(it.quantity, Finite(1.0))
  }

  /** The record appended for a product not yet in the list. */
  function NewItem(p: Product, now: real): (r: Item)
    ensures r.productId == p.id && r.name == p.name && r.quantity == Finite(1.0) && r.addedAt == Finite(now)
    ensures r.price == (if p.price.Truthy() then p.price else Finite(0.0))
    ensures p.images.Some? && |p.images.value| > 0 ==> r.image == p.images.value[0]
    ensures (p.images.None? || p.images.value == []) ==> r.image == ""
  {
    var image := if p.images.Some? && |p.images.value| > 0 then p.images.value[0] else "";
    Item(p.id, p.name, if p.price.Truthy() then p.price else Finite(0.0), image, Finite(1.0), Finite(now))
  }

  /**
   * `addItem(product)`: None (nothing is written) for a falsy id; otherwise
   * the list to persist, in which an existing product counts one more and a
   * new one is appended with quantity 1.
   */
  function AddItem(current: seq<Item>, p: Product, now: real): (r: Option<seq<Item>>)
    ensures r.None? <==> !p.id.Truthy()
    ensures r.Some? && AnyMatch(current, p.id) ==>
      (|r.value| == |current| &&
       forall i :: 0 <= i < |current| ==>
         r.value[i] == if Matches(current[i], p.id) then current[i].(quantity := Increment(current[i])) else current[i])
    ensures r.Some? && !AnyMatch(current, p.id) ==>
      (|r.value| == |current| + 1 && r.value[..|current|] == current && r.value[|current|] == NewItem(p, now))
  {
    if !p.id.Truthy() then None
    else if AnyMatch(current, p.id) then Some(SetWhere(current, p.id, Increment))
    else
      var r := current + [NewItem(p, now)];
      assert r[..|current|] == current;
      Some(r)
  }

  /** `removeItem(id)`: the items whose product id is not `=== id`, in order. */
  function RemoveItem(items: seq<Item>, id: Num): (r: seq<Item>)
    ensures |r| <= |items|
    ensures forall i :: 0 <= i < |r| ==> !Matches(r[i], id)
    ensures forall it :: it in r <==> it in items && !Matches(it, id)
  {
    if items == [] then []
    else
      assert items == [items[0]] + items[1..];
      (if Matches(items[0], id) then [] else [items[0]]) + RemoveItem(items[1..], id)
  }

  /**
   * `updateQuantity(id, q)`: None (nothing is written) unless `q` is a finite
   * number of at least 1; otherwise every item of that product gets `q`.
   */
  function UpdateQuantity(items: seq<Item>, id: Num, q: Num): (r: Option<seq<Item>>)
    ensures r.None? <==> !q.Finite? || q.v < 1.0
    ensures r.Some? ==> (|r.value| == |items| &&
      forall i :: 0 <= i < |items| ==>
        r.value[i] == if Matches(items[i], id) then items[i].(quantity := q) else items[i])
  {
    if !q.Finite? || q.v < 1.0 then None else Some(SetWhere(items, id, _ => q))
  }

  /**
   * `items.reduce((sum, i) => sum + i.quantity, 0)`: finite exactly when every
   * quantity is finite, and NaN as soon as one quantity is NaN.
   */
  function Count(items: seq<Item>): (r: Num)
    ensures r.Finite? <==> FiniteQuantities(items)
    ensures (exists i :: 0 <= i < |items| && items[i].quantity.NaN?) ==> r.NaN?
  {
    if items == [] then Finite(0.0)
    else
      var init := items[..|items| - 1];
      assert forall i :: 0 <= i < |init| ==> init[i] == items[i];
      NumAdd(Count(init), items[|items| - 1].quantity)
  }

  /** Every price and quantity is a finite number. */
  predicate FiniteAmounts(items: seq<Item>) {
    forall i :: 0 <= i < |items| ==> items[i].price.Finite? && items[i].quantity.Finite?
  }

  /**
   * `items.reduce((sum, i) => sum + i.price * i.quantity, 0)`: finite exactly
   * when every price and quantity is finite, and NaN as soon as one of them is NaN.
   */
  function Total(items: seq<Item>): (r: Num)
    ensures r.Finite? <==> FiniteAmounts(items)
    ensures (exists i :: 0 <= i < |items| && (items[i].price.NaN? || items[i].quantity.NaN?)) ==> r.NaN?
  {
    if items == [] then Finite(0.0)
    else
      var init := items[..|items| - 1];
      var last := items[|items| - 1];
      assert forall i :: 0 <= i < |init| ==> init[i] == items[i];
      NumAdd(Total(init), NumMul(last.price, last.quantity))
  }

  /** `clearAll()`: the empty list, whose count and total are both 0. */
  function ClearAll(items: seq<Item>): (r: seq<Item>)
    ensures |r| == 0
    ensures Count(r) == Finite(0.0) && Total(r) == Finite(0.0)
  {
    []
  }

  // ---------------------------------------------------------------------------
  // Sums
  // ---------------------------------------------------------------------------

  /** Sum of the quantities, added from the right: an independent reference for `Count`. */
  function SumQ(items: seq<Item>): real
    requires FiniteQuantities(items)
  {
    if items == [] then 0.0 else items[0].quantity.v + SumQ(items[1..])
  }

  lemma {:induction false} SumQConcat(a: seq<Item>, b: seq<Item>)
    requires FiniteQuantities(a) && FiniteQuantities(b)
    ensures FiniteQuantities(a + b)
    ensures SumQ(a + b) == SumQ(a) + SumQ(b)
  {
    if a == [] {
      assert a + b == b;
    } else {
      assert (a + b)[1..] == a[1..] + b;
      SumQConcat(a[1..], b);
    }
  }

  /** With finite quantities the running count is the plain sum of the quantities. */
  lemma {:induction false} CountIsSum(items: seq<Item>)
    requires FiniteQuantities(items)
    ensures Count(items) == Finite(SumQ(items))
  {
    if items != [] {
      var init := items[..|items| - 1];
      var last := items[|items| - 1];
      CountIsSum(init);
      assert items == init + [last];
      SumQConcat(init, [last]);
    }
  }

  /** Number of items of product `id`. */
  function Hits(items: seq<Item>, id: Num): nat {
    if items == [] then 0 else (if Matches(items[0], id) then 1 else 0) + Hits(items[1..], id)
  }

  lemma {:induction false} NoHits(items: seq<Item>, id: Num)
    requires !AnyMatch(items, id)
    ensures Hits(items, id) == 0
  {
    if items != [] {
      assert !AnyMatch(items[1..], id) by {
        forall i | 0 <= i < |items| - 1
          ensures !Matches(items[1..][i], id)
        {
          assert items[1..][i] == items[i + 1];
        }
      }
      NoHits(items[1..], id);
    }
  }

  /** With one item per product, a product that is present is present exactly once. */
  lemma {:induction false} UniqueHit(items: seq<Item>, id: Num)
    requires UniqueIds(items) && AnyMatch(items, id)
    ensures Hits(items, id) == 1
  {
    assert UniqueIds(items[1..]) by {
      forall i, j | 0 <= i < j < |items| - 1
        ensures items[1..][i].productId != items[1..][j].productId
      {
        assert items[1..][i] == items[i + 1] && items[1..][j] == items[j + 1];
      }
    }
    if Matches(items[0], id) {
      assert !AnyMatch(items[1..], id) by {
        forall i | 0 <= i < |items| - 1
          ensures !Matches(items[1..][i], id)
        {
          assert items[1..][i] == items[i + 1];
        }
      }
      NoHits(items[1..], id);
    } else {
      var k :| 0 <= k < |items| && Matches(items[k], id);
      assert items[1..][k - 1] == items[k];
      UniqueHit(items[1..], id);
    }
  }

  /** Incrementing every item of product `id` adds one per such item to the sum. */
  lemma {:induction false} IncrementSum(items: seq<Item>, id: Num)
    requires FiniteQuantities(items)
    ensures FiniteQuantities(SetWhere(items, id, Increment))
    ensures SumQ(SetWhere(items, id, Increment)) == SumQ(items) + Hits(items, id) as real
  {
    if items != [] {
      var r := SetWhere(items, id, Increment);
      assert r[1..] == SetWhere(items[1..], id, Increment);
      IncrementSum(items[1..], id);
    }
  }

  lemma CountAfterIncrement(current: seq<Item>, id: Num)
    requires UniqueIds(current) && FiniteQuantities(current) && AnyMatch(current, id)
    ensures Count(SetWhere(current, id, Increment)) == NumAdd(Count(current), Finite(1.0))
  {
    CountIsSum(current);
    IncrementSum(current, id);
    UniqueHit(current, id);
    CountIsSum(SetWhere(current, id, Increment));
  }

  lemma CountAfterAppend(current: seq<Item>, it: Item)
    requires FiniteQuantities(current) && it.quantity == Finite(1.0)
    ensures Count(current + [it]) == NumAdd(Count(current), Finite(1.0))
  {
    CountIsSum(current);
    SumQConcat(current, [it]);
    CountIsSum(current + [it]);
  }

  /** Every successful `addItem` raises the count by exactly one. */
  lemma AddItemCount(current: seq<Item>, p: Product, now: real)
    requires p.id.Truthy() && UniqueIds(current) && FiniteQuantities(current)
    ensures AddItem(current, p, now).Some?
    ensures Count(AddItem(current, p, now).value) == NumAdd(Count(current), Finite(1.0))
  {
    if AnyMatch(current, p.id) {
      assert AddItem(current, p, now).value == SetWhere(current, p.id, Increment);
      CountAfterIncrement(current, p.id);
    } else {
      assert AddItem(current, p, now).value == current + [NewItem(p, now)];
      CountAfterAppend(current, NewItem(p, now));
    }
  }

  /** `addItem` never creates a second entry for a product. */
  lemma AddItemUnique(current: seq<Item>, p: Product, now: real)
    requires p.id.Truthy() && UniqueIds(current)
    ensures UniqueIds(AddItem(current, p, now).value)
  {
    var r := AddItem(current, p, now).value;
    if !AnyMatch(current, p.id) {
      forall i, j | 0 <= i < j < |r|
        ensures r[i].productId != r[j].productId
      {
        if j == |current| {
          assert !Matches(current[i], p.id);
        }
      }
    }
  }

  /** Removing a product just added leaves what removing it would have left before. */
  lemma {:induction false} RemoveAfterIncrement(items: seq<Item>, id: Num)
    ensures RemoveItem(SetWhere(items, id, Increment), id) == RemoveItem(items, id)
  {
    if items != [] {
      var r := SetWhere(items, id, Increment);
      assert r[1..] == SetWhere(items[1..], id, Increment);
      RemoveAfterIncrement(items[1..], id);
    }
  }

  lemma {:induction false} RemoveItemConcat(a: seq<Item>, b: seq<Item>, id: Num)
    ensures RemoveItem(a + b, id) == RemoveItem(a, id) + RemoveItem(b, id)
  {
    if a == [] {
      assert a + b == b;
    } else {
      assert (a + b)[0] == a[0];
      assert (a + b)[1..] == a[1..] + b;
      RemoveItemConcat(a[1..], b, id);
    }
  }

  /** `addItem` followed by `removeItem` of the same product is just `removeItem`. */
  lemma RemoveAfterAdd(current: seq<Item>, p: Product, now: real)
    requires p.id.Truthy()
    ensures RemoveItem(AddItem(current, p, now).value, p.id) == RemoveItem(current, p.id)
  {
    if AnyMatch(current, p.id) {
      RemoveAfterIncrement(current, p.id);
    } else {
      RemoveItemConcat(current, [NewItem(p, now)], p.id);
      assert RemoveItem([NewItem(p, now)], p.id) == [];
    }
  }

  /** Setting the same quantity twice is the same as setting it once. */
  lemma UpdateQuantityIdempotent(items: seq<Item>, id: Num, q: Num)
    requires UpdateQuantity(items, id, q).Some?
    ensures UpdateQuantity(UpdateQuantity(items, id, q).value, id, q) == UpdateQuantity(items, id, q)
  {
    var r := UpdateQuantity(items, id, q).value;
    var r2 := UpdateQuantity(r, id, q).value;
    forall i | 0 <= i < |r|
      ensures r2[i] == r[i]
    {
      assert r[i].productId == items[i].productId;
    }
    assert r2 == r;
  }

  /** `removeItem` takes away exactly what zeroing that product's quantities would. */
  lemma {:induction false} RemoveItemSum(items: seq<Item>, id: Num)
    requires FiniteQuantities(items)
    ensures FiniteQuantities(RemoveItem(items, id))
    ensures FiniteQuantities(SetWhere(items, id, _ => Finite(0.0)))
    ensures SumQ(RemoveItem(items, id)) == SumQ(SetWhere(items, id, _ => Finite(0.0)))
  {
    if items != [] {
      var z := SetWhere(items, id, _ => Finite(0.0));
      assert z[1..] == SetWhere(items[1..], id, _ => Finite(0.0));
      RemoveItemSum(items[1..], id);
      var head := if Matches(items[0], id) then [] else [items[0]];
      assert RemoveItem(items, id) == head + RemoveItem(items[1..], id);
      SumQConcat(head, RemoveItem(items[1..], id));
    }
  }
}
