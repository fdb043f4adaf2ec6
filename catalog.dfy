/**
 * The catalog (category -> items) and the process-wide selection-key table
 * `order_map` that links a rendered item's preorder button to the item.
 */
module Catalog {
  import opened Wrappers
  import opened Text

  datatype Item = Item(name: string, price: string, desc: string, photo: string)

  type Catalog = map<string, seq<Item>>

  /** The `(cat, idx)` pair stored in `order_map`. */
  datatype ItemRef = ItemRef(cat: string, idx: nat)

  type SelectionTable = map<string, ItemRef>

  /** `catalog.get(cat, [])`. */
  function ItemsOf(catalog: Catalog, cat: string): (items: seq<Item>) {
    if cat in catalog then catalog[cat] else []
  }

  /** The selection key `f"{cat}:{idx}"`. */
  function Key(cat: string, idx: nat): (key: string) {
    cat + ":" + NatString(idx)
  }

  /** How many characters follow the last ':' of `s` (all of them when there is none). */
  function TailLength(s: string): (n: nat) {
    if |s| == 0 || s[|s| - 1] == ':' then 0 else 1 + TailLength(s[..|s| - 1])
  }

  lemma {:induction false} TailLength_Key(cat: string, digits: string)
    requires forall i :: 0 <= i < |digits| ==> IsDigit(digits[i])
    ensures TailLength(cat + ":" + digits) == |digits|
  {
    var s := cat + ":" + digits;
    if |digits| > 0 {
      assert s[..|s| - 1] == cat + ":" + digits[..|digits| - 1];
      TailLength_Key(cat, digits[..|digits| - 1]);
    }
  }

  /** Two items never share a key, whatever the category names contain. */
  lemma Key_Injective(c1: string, i1: nat, c2: string, i2: nat)
    ensures Key(c1, i1) == Key(c2, i2) ==> c1 == c2 && i1 == i2
  {
    if Key(c1, i1) == Key(c2, i2) {
      var k := Key(c1, i1);
      var d1, d2 := NatString(i1), NatString(i2);
      assert k == c1 + ":" + d1 && k == c2 + ":" + d2;
      TailLength_Key(c1, d1);
      TailLength_Key(c2, d2);
      assert c1 == k[..|c1|] == c2;
      assert d1 == k[|c1| + 1..] == d2;
      NatString_Injective(i1, i2);
    }
  }

  /** An `order_map` entry names an existing item under that item's own key. */
  predicate RefersInto(catalog: Catalog, key: string, ref: ItemRef) {
    ref.cat in catalog && ref.idx < |catalog[ref.cat]| && key == Key(ref.cat, ref.idx)
  }

  /** Every entry of the table names an existing item under that item's own key. */
  predicate TableInto(catalog: Catalog, table: SelectionTable) {
    forall key :: key in table ==> RefersInto(catalog, key, table[key])
  }

  function ItemAt(catalog: Catalog, ref: ItemRef): (item: Item)
    requires ref.cat in catalog && ref.idx < |catalog[ref.cat]|
  {
    catalog[ref.cat][ref.idx]
  }

  /** `order_map` after the loop of `show_items` has registered the first `n` items of `cat`. */
  function Rendered(m: SelectionTable, cat: string, n: nat): (table: SelectionTable) {
    if n == 0 then m else Rendered(m, cat, n - 1)[Key(cat, n - 1) := ItemRef(cat, n - 1)]
  }

  /** Every rendered item's key leads back to that item. */
  lemma {:induction false} Rendered_Maps(m: SelectionTable, cat: string, n: nat, i: nat)
    requires i < n
    ensures Key(cat, i) in Rendered(m, cat, n) && Rendered(m, cat, n)[Key(cat, i)] == ItemRef(cat, i)
  {
    if i < n - 1 {
      Rendered_Maps(m, cat, n - 1, i);
      Key_Injective(cat, i, cat, n - 1);
    }
  }

  /** Every other entry of the table is left as it was. */
  lemma {:induction false} Rendered_Others(m: SelectionTable, cat: string, n: nat, k: string)
    requires forall i :: 0 <= i < n ==> k != Key(cat, i)
    ensures k in Rendered(m, cat, n) <==> k in m
    ensures k in m ==> Rendered(m, cat, n)[k] == m[k]
  {
    if n > 0 {
      Rendered_Others(m, cat, n - 1, k);
    }
  }

  lemma {:induction false} Rendered_AlreadyThere(m: SelectionTable, cat: string, n: nat)
    requires forall i :: 0 <= i < n ==> Key(cat, i) in m && m[Key(cat, i)] == ItemRef(cat, i)
    ensures Rendered(m, cat, n) == m
  {
    if n > 0 {
      Rendered_AlreadyThere(m, cat, n - 1);
    }
  }

  /** Rendering the same category again leaves the table as the first rendering left it. */
  lemma Rendered_Idempotent(m: SelectionTable, cat: string, n: nat)
    ensures Rendered(Rendered(m, cat, n), cat, n) == Rendered(m, cat, n)
  {
    forall i | 0 <= i < n
      ensures Key(cat, i) in Rendered(m, cat, n) && Rendered(m, cat, n)[Key(cat, i)] == ItemRef(cat, i)
    {
      Rendered_Maps(m, cat, n, i);
    }
    Rendered_AlreadyThere(Rendered(m, cat, n), cat, n);
  }

  /** Rendering items that exist keeps every entry of the table pointing into the catalog. */
  lemma {:induction false} Rendered_Into(catalog: Catalog, m: SelectionTable, cat: string, n: nat)
    requires TableInto(catalog, m) && n <= |ItemsOf(catalog, cat)|
    ensures TableInto(catalog, Rendered(m, cat, n))
  {
    if n > 0 {
      Rendered_Into(catalog, m, cat, n - 1);
    }
  }

  const ORDER_PREFIX := "order:"

  /** The `callback_data` of an item's preorder button. */
  function CallbackData(key: string): (data: string) {
    ORDER_PREFIX + key
  }

  /** `cb.data.split(":", 1)[1]` for the data `order_start` accepts: the key the button was built with. */
  function SelectionKey(data: string): (key: string)
    requires StartsWith(data, ORDER_PREFIX)
    ensures CallbackData(key) == data
  {
    var rest := data[|ORDER_PREFIX|..];
    assert data == "order" + [':'] + rest;
    AfterFirst_Prefix("order", ':', rest);
    AfterFirst(data, ':').value
  }
}
