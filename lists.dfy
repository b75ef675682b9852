/** A growable list that the program fills in place (the role of java.util.ArrayList). */
module Lists {

  class ArrayList<T> {
    var items: seq<T>

    constructor ()
      ensures items == []
    {
      items := [];
    }

    /** A list holding `s`, as a collector's `toList()` hands it out. */
    constructor FromSeq(s: seq<T>)
      ensures items == s
    {
      items := s;
    }

    /** `List.add(x)`: appends at the end. */
    method Add(x: T)
      modifies this
      ensures items == old(items) + [x]
    {
      items := items + [x];
    }

    /** `List.add(index, x)`: inserts before position `index`. */
    method AddAt(index: nat, x: T)
      requires index <= |items|
      modifies this
      ensures items == old(items)[..index] + [x] + old(items)[index..]
    {
      items := items[..index] + [x] + items[index..];
    }
  }
}
