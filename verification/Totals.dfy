/** Adding up a size over the elements of a finite set. */
module Totals {

  ghost function Total<T(!new)>(items: set<T>, size: T -> nat): nat {
    if items == {} then 0
    else
      var x :| x in items;
      size(x) + Total(items - {x}, size)
  }

  lemma {:induction false} TotalMinus<T(!new)>(items: set<T>, x: T, size: T -> nat)
    requires x in items
    ensures Total(items, size) == size(x) + Total(items - {x}, size)
  {
    var y :| y in items && Total(items, size) == size(y) + Total(items - {y}, size);
    if y != x {
      TotalMinus(items - {y}, x, size);
      TotalMinus(items - {x}, y, size);
      assert items - {y} - {x} == items - {x} - {y};
    }
  }

  lemma TotalPlus<T(!new)>(items: set<T>, x: T, size: T -> nat)
    requires x !in items
    ensures Total(items + {x}, size) == size(x) + Total(items, size)
  {
    TotalMinus(items + {x}, x, size);
    assert items + {x} - {x} == items;
  }
}
