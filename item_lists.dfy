/** The procedure items of the two record forms and the list edits they apply to them:
    append, the `filter((_, idx) => idx !== i)` removal and the `map` that replaces one index. */
module ItemLists {
  import opened Wrappers

  /** An item being edited: the stored id when it came from the server (only the edit form
      has one), its name and its price as typed. */
  datatype FormItem = FormItem(id: Option<int>, itemName: string, price: string)

  /** `{ item_name: "", price: "" }`. */
  const EmptyItem := FormItem(None, "", "")

  /** The two editable keys, `"item_name" | "price"`. */
  datatype ItemField = ItemName | Price

  /** `{ ...item, [field]: value }`. */
  function SetField(item: FormItem, field: ItemField, value: string): (r: FormItem)
    ensures r.id == item.id
    ensures field == ItemName ==> r.itemName == value && r.price == item.price
    ensures field == Price ==> r.price == value && r.itemName == item.itemName
  {
    match field
    case ItemName => item.(itemName := value)
    case Price => item.(price := value)
  }

  /** The update handler: only the given field of item `i` changes. */
  function UpdateField(items: seq<FormItem>, i: int, field: ItemField, value: string): (r: seq<FormItem>)
    ensures |r| == |items|
    ensures forall j :: 0 <= j < |items| && j != i ==> r[j] == items[j]
    ensures 0 <= i < |items| ==> r[i] == SetField(items[i], field, value)
  {
    if 0 <= i < |items| then ReplaceAt(items, i, SetField(items[i], field, value)) else items
  }

  /** Writing back the value a field already holds changes nothing. */
  lemma UpdateSameValue(items: seq<FormItem>, i: int, field: ItemField)
    requires 0 <= i < |items|
    ensures UpdateField(items, i, field,
              if field == ItemName then items[i].itemName else items[i].price) == items
  {
  }

  /** The last write to a field wins. */
  lemma UpdateTwice(items: seq<FormItem>, i: int, field: ItemField, v: string, w: string)
    ensures UpdateField(UpdateField(items, i, field, v), i, field, w) == UpdateField(items, i, field, w)
  {
  }

  /** `prev.filter((_, idx) => idx !== i)`: drop index `i`, keep the order; an index
      outside the list drops nothing. */
  function RemoveAt<T>(s: seq<T>, i: int): (r: seq<T>)
    ensures 0 <= i < |s| ==> |r| == |s| - 1
    ensures 0 <= i < |s| ==> forall j :: 0 <= j < i ==> r[j] == s[j]
    ensures 0 <= i < |s| ==> forall j :: i <= j < |r| ==> r[j] == s[j + 1]
    ensures !(0 <= i < |s|) ==> r == s
  {
    if 0 <= i < |s| then s[..i] + s[i + 1..] else s
  }

  /** `prev.map((item, idx) => idx === i ? f(item) : item)`, with the new item given. */
  function ReplaceAt<T>(s: seq<T>, i: int, v: T): (r: seq<T>)
    ensures |r| == |s|
    ensures forall j :: 0 <= j < |s| && j != i ==> r[j] == s[j]
    ensures 0 <= i < |s| ==> r[i] == v
  {
    if 0 <= i < |s| then s[i := v] else s
  }

  /** Appending and then removing the new last element gives the list back. */
  lemma AppendThenRemove<T>(s: seq<T>, x: T)
    ensures RemoveAt(s + [x], |s|) == s
  {
  }

  /** Removing keeps every other element, in order: the result is the list with one hole. */
  lemma RemoveAtSplit<T>(s: seq<T>, i: int)
    requires 0 <= i < |s|
    ensures s == RemoveAt(s, i)[..i] + [s[i]] + RemoveAt(s, i)[i..]
  {
    var r := RemoveAt(s, i);
    assert r[..i] == s[..i];
    assert r[i..] == s[i + 1..];
  }

  /** Replacing an element with itself changes nothing. */
  lemma ReplaceSame<T>(s: seq<T>, i: int)
    requires 0 <= i < |s|
    ensures ReplaceAt(s, i, s[i]) == s
  {
  }
}
