/** VSArray of AVSMap.h: one element is kept inline, two or more in a vector. */
module VSArray {
  class PropertyArray<T(==)> {
    var fsize: nat
    var singleData: T
    var data: seq<T>

    ghost predicate Valid()
      reads this
    {
      if fsize <= 1 then data == [] else |data| == fsize
    }

    /** The plain sequence that the array stands for. */
    ghost function Elements(): seq<T>
      reads this
    {
      if fsize == 0 then [] else if fsize == 1 then [singleData] else data
    }

    constructor (zero: T)
      ensures Valid() && Elements() == []
    {
      fsize, singleData, data := 0, zero, [];
    }

    /** VSArray(val, count); `zero` is the value-initialised T. */
    constructor FromValues(zero: T, val: seq<T>)
      ensures Valid() && Elements() == val
    {
      fsize := |val|;
      singleData := if |val| == 1 then val[0] else zero;
      data := if |val| == 1 then [] else val;
    }

    /** The copy constructor copies only the representation in use. */
    constructor Copy(zero: T, other: PropertyArray<T>)
      requires other.Valid()
      ensures Valid() && Elements() == other.Elements()
    {
      fsize := other.fsize;
      singleData := if other.fsize == 1 then other.singleData else zero;
      data := if other.fsize > 1 then other.data else [];
    }

    /** The second element moves the inline one into the vector; `moved` is what std::move leaves behind. */
    method PushBack(val: T, moved: T)
      requires Valid()
      modifies this
      ensures Valid() && Elements() == old(Elements()) + [val]
    {
      if fsize == 0 {
        singleData := val;
      } else if fsize == 1 {
        data := data + [singleData];
        singleData := moved;
        data := data + [val];
      } else {
        data := data + [val];
      }
      fsize := fsize + 1;
    }

    method At(pos: nat) returns (r: T)
      requires Valid() && pos < |Elements()|
      ensures r == Elements()[pos]
    {
      r := if fsize == 1 then singleData else data[pos];
    }

    /** What getDataPointer lets a caller read: size() consecutive elements. */
    method DataPointer() returns (r: seq<T>)
      requires Valid()
      ensures r == Elements()
    {
      r := if fsize == 1 then [singleData] else data;
    }
  }
}
