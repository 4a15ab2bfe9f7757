/**
 * The list updates the editor computes before it hands a whole new list to
 * its parent: `filter` by position (delete), `map` by position (update in
 * place) and spread-append (add new).
 */
module ListOps {

  /**
   * `items.filter((_, i) => i !== index)`: keep every element whose position
   * differs from `index`, in their original order.
   */
  function RemoveAt<T>(items: seq<T>, index: int): (r: seq<T>)
    ensures |r| == if 0 <= index < |items| then |items| - 1 else |items|
    decreases |items|
  {
    if items == [] then []
    else
      var n := |items| - 1;
      RemoveAt(items[..n], index) + (if n != index then [items[n]] else [])
  }

  /**
   * Deleting a position in range removes exactly that element and keeps the
   * relative order of all others; deleting a position out of range keeps the
   * list as it was.
   */
  lemma {:induction false} RemoveAtSpec<T>(items: seq<T>, index: int)
    ensures 0 <= index < |items| ==> RemoveAt(items, index) == items[..index] + items[index + 1..]
    ensures !(0 <= index < |items|) ==> RemoveAt(items, index) == items
  {
    if items != [] {
      var n := |items| - 1;
      RemoveAtSpec(items[..n], index);
      if 0 <= index < n {
        assert items[..n][..index] == items[..index];
        assert items[..n][index + 1..] + [items[n]] == items[index + 1..];
      } else if index == n {
        assert items[..n] == items[..index];
        assert items[index + 1..] == [];
      } else {
        assert items[..n] + [items[n]] == items;
      }
    }
  }

  /**
   * `items.map((item, i) => i === index ? entry : item)`: the element at
   * `index` becomes `entry`, all others stay.
   */
  function ReplaceAt<T>(items: seq<T>, index: int, entry: T): (r: seq<T>)
  {
    seq(|items|, i requires 0 <= i < |items| => if i == index then entry else items[i])
  }

  /**
   * Replacing a position in range is the sequence update at that position;
   * a position out of range matches no element and leaves the list as it was.
   */
  lemma ReplaceAtSpec<T>(items: seq<T>, index: int, entry: T)
    ensures 0 <= index < |items| ==> ReplaceAt(items, index, entry) == items[index := entry]
    ensures !(0 <= index < |items|) ==> ReplaceAt(items, index, entry) == items
  {
  }

  /**
   * The list `save` pushes: an update in place when `editIndex > -1`,
   * otherwise `[...items, entry]`.
   */
  function SaveList<T>(items: seq<T>, editIndex: int, entry: T): (r: seq<T>)
  {
    if editIndex > -1 then ReplaceAt(items, editIndex, entry) else items + [entry]
  }

  /**
   * The three outcomes of `save`: a new entry is appended after the unchanged
   * items; an edited position is replaced with everything else kept; an edit
   * position that has fallen off the end of the list changes nothing.
   */
  lemma SaveListSpec<T>(items: seq<T>, editIndex: int, entry: T)
    ensures editIndex <= -1 ==>
      |SaveList(items, editIndex, entry)| == |items| + 1 &&
      SaveList(items, editIndex, entry)[..|items|] == items &&
      SaveList(items, editIndex, entry)[|items|] == entry
    ensures 0 <= editIndex < |items| ==>
      |SaveList(items, editIndex, entry)| == |items| &&
      SaveList(items, editIndex, entry)[editIndex] == entry &&
      forall j :: 0 <= j < |items| && j != editIndex ==> SaveList(items, editIndex, entry)[j] == items[j]
    ensures editIndex >= |items| ==> SaveList(items, editIndex, entry) == items
  {
    ReplaceAtSpec(items, editIndex, entry);
  }
}
