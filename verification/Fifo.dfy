module Options {
  datatype Option<+T> = None | Some(value: T)
}

/** The bounded queue between the receive worker and its consumer, in the modes this program uses. */
module Fifo {
  import opened Options

  class TSQueue<T> {
    var items: seq<T>
    const maxSize: nat
    const overwriteWhenFull: bool

    constructor (maxSize: nat, overwriteWhenFull: bool)
      ensures items == []
      ensures this.maxSize == maxSize && this.overwriteWhenFull == overwriteWhenFull
    {
      items := [];
      this.maxSize := maxSize;
      this.overwriteWhenFull := overwriteWhenFull;
    }

    predicate IsFull()
      reads this
    {
      maxSize != 0 && |items| == maxSize
    }

    /**
     * push with blocking = false. With overwriting enabled the answer is always
     * true, even when the oldest entry had to go.
     */
    method Push(item: T) returns (pushed: bool)
      modifies this
      ensures pushed <==> !old(IsFull()) || overwriteWhenFull
      ensures !old(IsFull()) ==> items == old(items) + [item]
      ensures old(IsFull()) && overwriteWhenFull ==> items == old(items)[1..] + [item]
      ensures !pushed ==> items == old(items)
    {
      if maxSize != 0 && |items| == maxSize {
        if !overwriteWhenFull {
          return false;
        }
        items := items[1..];
      }
      items := items + [item];
      return true;
    }

    /** pop: the oldest entry, or nothing when the queue is still empty at the end of the wait. */
    method Pop() returns (item: Option<T>)
      modifies this
      ensures old(items) == [] ==> item == None && items == []
      ensures old(items) != [] ==> item == Some(old(items)[0]) && items == old(items)[1..]
    {
      if |items| == 0 {
        return None;
      }
      item := Some(items[0]);
      items := items[1..];
    }
  }
}
