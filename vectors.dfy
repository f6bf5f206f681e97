/** A growable buffer standing for the std::vector the generators fill. */
module Vectors {

  class Vector<T> {
    var elems: seq<T>

    constructor ()
      ensures elems == []
    {
      elems := [];
    }

    /** std::vector::clear */
    method Clear()
      modifies this
      ensures elems == []
    {
      elems := [];
    }

    /** std::vector::push_back */
    method PushBack(x: T)
      modifies this
      ensures elems == old(elems) + [x]
    {
      elems := elems + [x];
    }

    /** std::vector::insert(end(), { ... }) */
    method Append(xs: seq<T>)
      modifies this
      ensures elems == old(elems) + xs
    {
      elems := elems + xs;
    }
  }
}
