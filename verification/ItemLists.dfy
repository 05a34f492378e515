/** Lists that hold exactly the items of a kind, each once and in a given order of places. */
module ItemLists {
  function ItemIf<T>(condition: bool, item: T): seq<T> {
    if condition then [item] else []
  }

  /** The first of two items that applies. */
  function EitherIf<T>(p: bool, a: T, q: bool, b: T): (items: seq<T>)
    ensures items == ItemIf(p, a) + ItemIf(!p && q, b)
  {
    if p then [a] else ItemIf(q, b)
  }

  /** The items of a kind whose places are between `first` and `end`, one for each place and in order. */
  ghost predicate Lists<T(!new)>(items: seq<T>, has: T -> bool, place: T -> nat, first: nat, end: nat) {
    && (forall x :: x in items <==> has(x) && first <= place(x) < end)
    && (forall i, j | 0 <= i < j < |items| :: place(items[i]) < place(items[j]))
  }

  /** Further places may be added that no item of the kind has. */
  lemma Widen<T(!new)>(items: seq<T>, has: T -> bool, place: T -> nat, first: nat, end: nat, lower: nat, upper: nat)
    requires Lists(items, has, place, first, end) && lower <= first <= end <= upper
    requires forall x | has(x) && lower <= place(x) < upper :: first <= place(x) < end
    ensures Lists(items, has, place, lower, upper)
  {
  }

  lemma Join<T(!new)>(a: seq<T>, b: seq<T>, has: T -> bool, place: T -> nat, first: nat, middle: nat, end: nat)
    requires first <= middle <= end && Lists(a, has, place, first, middle) && Lists(b, has, place, middle, end)
    ensures Lists(a + b, has, place, first, end)
  {
    var items := a + b;
    forall i, j | 0 <= i < j < |items| ensures place(items[i]) < place(items[j]) {
      if i < |a| <= j {
        assert a[i] in a && b[j - |a|] in b;
      }
    }
  }

  /** An item has its place for itself. */
  ghost predicate Alone<T(!new)>(has: T -> bool, place: T -> nat, item: T) {
    forall x | has(x) && place(x) == place(item) :: x == item
  }

  /** An item, if it is of a kind. */
  ghost function Of<T(!new)>(has: T -> bool, item: T): seq<T> {
    ItemIf(has(item), item)
  }

  lemma Single<T(!new)>(has: T -> bool, place: T -> nat, item: T)
    requires Alone(has, place, item)
    ensures Lists(Of(has, item), has, place, place(item), place(item) + 1)
  {
  }

  /** Two items at neighbouring places. */
  lemma Pair<T(!new)>(has: T -> bool, place: T -> nat, a: T, b: T)
    requires Alone(has, place, a) && Alone(has, place, b) && place(b) == place(a) + 1
    ensures Lists(Of(has, a) + Of(has, b), has, place, place(a), place(a) + 2)
  {
    hide Lists, Of, Alone;
    Single(has, place, a);
    Single(has, place, b);
    Join(Of(has, a), Of(has, b), has, place, place(a), place(b), place(b) + 1);
  }

  /** Three items at neighbouring places. */
  lemma Triple<T(!new)>(has: T -> bool, place: T -> nat, a: T, b: T, c: T)
    requires Alone(has, place, a) && Alone(has, place, b) && Alone(has, place, c)
    requires place(b) == place(a) + 1 && place(c) == place(a) + 2
    ensures Lists(Of(has, a) + Of(has, b) + Of(has, c), has, place, place(a), place(a) + 3)
  {
    hide Lists, Of, Alone;
    Pair(has, place, a, b);
    Single(has, place, c);
    Join(Of(has, a) + Of(has, b), Of(has, c), has, place, place(a), place(c), place(c) + 1);
  }

  /** Two pairs of items at neighbouring places. */
  lemma Pairs<T(!new)>(has: T -> bool, place: T -> nat, a: T, b: T, c: T, d: T)
    requires Alone(has, place, a) && Alone(has, place, b) && Alone(has, place, c) && Alone(has, place, d)
    requires place(b) == place(a) + 1 && place(c) == place(a) + 2 && place(d) == place(a) + 3
    ensures Lists((Of(has, a) + Of(has, b)) + (Of(has, c) + Of(has, d)), has, place, place(a), place(a) + 4)
  {
    hide Lists, Of, Alone;
    Pair(has, place, a, b);
    Pair(has, place, c, d);
    Join(Of(has, a) + Of(has, b), Of(has, c) + Of(has, d), has, place, place(a), place(c), place(c) + 2);
  }

  /** The items of a list are those of its kind, when there are none outside its places. */
  lemma EmptyMeansNone<T(!new)>(items: seq<T>, has: T -> bool, place: T -> nat, first: nat, end: nat)
    requires Lists(items, has, place, first, end) && forall x | has(x) :: first <= place(x) < end
    ensures items == [] <==> forall x :: !has(x)
  {
    if items != [] {
      assert items[0] in items;
    }
  }
}
