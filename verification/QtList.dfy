/** The part of Qt's list widget that the list code relies on. */
module QtList {
  import opened Sequences

  class ListWidget<T> {
    var items: seq<T>

    constructor (items: seq<T>)
      ensures this.items == items
    {
      this.items := items;
    }

    method TakeItem(row: nat) returns (item: T)
      requires row < |items|
      modifies this
      ensures item == old(items)[row] && items == RemovedAt(old(items), row)
    {
      item := items[row];
      items := items[..row] + items[row + 1..];
    }

    method InsertItem(row: int, item: T)
      modifies this
      ensures items == InsertedAt(old(items), row, item)
    {
      var at := Clamped(row, |items|);
      items := items[..at] + [item] + items[at..];
    }
  }
}
