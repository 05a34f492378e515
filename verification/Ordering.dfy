/** Python's orders on strings and on key tuples, and sorting by such keys. */
module Ordering {
  import opened Wrappers

  datatype KeyPart = Text(s: string) | Number(n: int) | Flag(b: bool) | Score(x: real)

  type Key = seq<KeyPart>

  /** Python's order on strings. */
  predicate TextBefore(a: string, b: string) {
    b != [] && (a == [] || a[0] < b[0] || (a[0] == b[0] && TextBefore(a[1..], b[1..])))
  }

  predicate PartBefore(a: KeyPart, b: KeyPart) {
    match (a, b)
    case (Text(s), Text(t)) => TextBefore(s, t)
    case (Number(m), Number(n)) => m < n
    case (Flag(p), Flag(q)) => !p && q
    case (Score(x), Score(y)) => x < y
    case _ => false
  }

  /** Python's order on key tuples of one shape. */
  predicate KeyBefore(a: Key, b: Key) {
    b != [] && (a == [] || PartBefore(a[0], b[0]) || (a[0] == b[0] && KeyBefore(a[1..], b[1..])))
  }

  predicate SameKind(a: KeyPart, b: KeyPart) {
    (a.Text? <==> b.Text?) && (a.Number? <==> b.Number?) && (a.Flag? <==> b.Flag?)
  }

  predicate SameShape(a: Key, b: Key) {
    |a| == |b| && forall i | 0 <= i < |a| :: SameKind(a[i], b[i])
  }

  // ----- What the orders mean -----

  /** Up to `k` the texts agree, and there the first one ends or has the smaller character. */
  ghost predicate TextTurnsAt(a: string, b: string, k: int) {
    0 <= k <= |a| && k < |b| && a[..k] == b[..k] && (k == |a| || a[k] < b[k])
  }

  lemma TextTurnsLater(a: string, b: string, k: int)
    requires a != [] && b != [] && k > 0
    ensures TextTurnsAt(a, b, k) <==> a[0] == b[0] && TextTurnsAt(a[1..], b[1..], k - 1)
  {
    if k <= |a| && k < |b| {
      assert a[..k] == [a[0]] + a[1..][..k - 1] && b[..k] == [b[0]] + b[1..][..k - 1];
      assert a[..k] == b[..k] ==> a[..k][0] == b[..k][0] && a[..k][1..] == b[..k][1..];
      assert a[..k][1..] == a[1..][..k - 1] && b[..k][1..] == b[1..][..k - 1];
    }
  }

  lemma {:induction false} TextBeforeMeans(a: string, b: string)
    ensures TextBefore(a, b) <==> exists k :: TextTurnsAt(a, b, k)
  {
    if b == [] || a == [] || a[0] < b[0] {
      assert b != [] ==> TextTurnsAt(a, b, 0);
    } else {
      TextBeforeMeans(a[1..], b[1..]);
      forall k | k > 0 ensures TextTurnsAt(a, b, k) <==> a[0] == b[0] && TextTurnsAt(a[1..], b[1..], k - 1) {
        TextTurnsLater(a, b, k);
      }
      assert !TextTurnsAt(a, b, 0);
      if exists k :: TextTurnsAt(a[1..], b[1..], k) {
        var k :| TextTurnsAt(a[1..], b[1..], k);
        assert a[0] == b[0] ==> TextTurnsAt(a, b, k + 1);
      }
    }
  }

  /** Texts by their first difference, numbers by value, false before true. */
  ghost predicate PartLess(a: KeyPart, b: KeyPart) {
    || (a.Text? && b.Text? && exists k :: TextTurnsAt(a.s, b.s, k))
    || (a.Number? && b.Number? && b.n - a.n > 0)
    || (a == Flag(false) && b == Flag(true))
    || (a.Score? && b.Score? && b.x - a.x > 0.0)
  }

  lemma PartBeforeMeans(a: KeyPart, b: KeyPart)
    ensures PartBefore(a, b) <==> PartLess(a, b)
  {
    if a.Text? && b.Text? {
      TextBeforeMeans(a.s, b.s);
    }
  }

  /** Up to `k` the keys agree, and there the first one ends or has the smaller part. */
  ghost predicate KeyTurnsAt(a: Key, b: Key, k: int) {
    0 <= k <= |a| && k < |b| && a[..k] == b[..k] && (k == |a| || PartLess(a[k], b[k]))
  }

  lemma KeyTurnsLater(a: Key, b: Key, k: int)
    requires a != [] && b != [] && k > 0
    ensures KeyTurnsAt(a, b, k) <==> a[0] == b[0] && KeyTurnsAt(a[1..], b[1..], k - 1)
  {
    hide PartLess;
    if k <= |a| && k < |b| {
      assert a[..k] == [a[0]] + a[1..][..k - 1] && b[..k] == [b[0]] + b[1..][..k - 1];
      assert a[..k] == b[..k] ==> a[..k][0] == b[..k][0] && a[..k][1..] == b[..k][1..];
      assert a[..k][1..] == a[1..][..k - 1] && b[..k][1..] == b[1..][..k - 1];
    }
  }

  lemma {:induction false} KeyBeforeMeans(a: Key, b: Key)
    ensures KeyBefore(a, b) <==> exists k :: KeyTurnsAt(a, b, k)
  {
    hide PartBefore, PartLess;
    if a != [] && b != [] {
      PartBeforeMeans(a[0], b[0]);
    }
    if b == [] || a == [] || PartBefore(a[0], b[0]) {
      assert b != [] ==> KeyTurnsAt(a, b, 0);
    } else {
      KeyBeforeMeans(a[1..], b[1..]);
      forall k | k > 0 ensures KeyTurnsAt(a, b, k) <==> a[0] == b[0] && KeyTurnsAt(a[1..], b[1..], k - 1) {
        KeyTurnsLater(a, b, k);
      }
      assert !KeyTurnsAt(a, b, 0);
      if exists k :: KeyTurnsAt(a[1..], b[1..], k) {
        var k :| KeyTurnsAt(a[1..], b[1..], k);
        assert a[0] == b[0] ==> KeyTurnsAt(a, b, k + 1);
      }
    }
  }

  lemma {:induction false} TextBeforeIsStrict(a: string)
    ensures !TextBefore(a, a)
  {
    if a != [] {
      TextBeforeIsStrict(a[1..]);
    }
  }

  lemma {:induction false} TextBeforeIsTransitive(a: string, b: string, c: string)
    requires TextBefore(a, b) && TextBefore(b, c)
    ensures TextBefore(a, c)
  {
    if a != [] && a[0] == b[0] && b[0] == c[0] {
      TextBeforeIsTransitive(a[1..], b[1..], c[1..]);
    }
  }

  lemma {:induction false} TextBeforeIsTotal(a: string, b: string)
    ensures a == b || TextBefore(a, b) || TextBefore(b, a)
  {
    if a != [] && b != [] && a[0] == b[0] {
      TextBeforeIsTotal(a[1..], b[1..]);
      assert a == [a[0]] + a[1..] && b == [b[0]] + b[1..];
    }
  }

  lemma PartBeforeIsStrict(a: KeyPart)
    ensures !PartBefore(a, a)
  {
    if a.Text? {
      TextBeforeIsStrict(a.s);
    }
  }

  lemma PartBeforeIsTransitive(a: KeyPart, b: KeyPart, c: KeyPart)
    requires PartBefore(a, b) && PartBefore(b, c)
    ensures PartBefore(a, c)
  {
    if a.Text? {
      TextBeforeIsTransitive(a.s, b.s, c.s);
    }
  }

  lemma {:induction false} KeyBeforeIsStrict(a: Key)
    ensures !KeyBefore(a, a)
  {
    if a != [] {
      PartBeforeIsStrict(a[0]);
      KeyBeforeIsStrict(a[1..]);
    }
  }

  lemma {:induction false} KeyBeforeIsTransitive(a: Key, b: Key, c: Key)
    requires KeyBefore(a, b) && KeyBefore(b, c)
    ensures KeyBefore(a, c)
  {
    if a != [] {
      if PartBefore(a[0], b[0]) && PartBefore(b[0], c[0]) {
        PartBeforeIsTransitive(a[0], b[0], c[0]);
      } else if a[0] == b[0] && b[0] == c[0] && !PartBefore(a[0], b[0]) {
        KeyBeforeIsTransitive(a[1..], b[1..], c[1..]);
      }
    }
  }

  lemma {:induction false} KeyBeforeIsTotal(a: Key, b: Key)
    requires SameShape(a, b)
    ensures a == b || KeyBefore(a, b) || KeyBefore(b, a)
  {
    if a != [] {
      assert SameKind(a[0], b[0]);
      if a[0].Text? {
        TextBeforeIsTotal(a[0].s, b[0].s);
      }
      if a[0] == b[0] {
        forall i | 0 <= i < |a[1..]| ensures SameKind(a[1..][i], b[1..][i]) {
          assert SameKind(a[i + 1], b[i + 1]);
        }
        KeyBeforeIsTotal(a[1..], b[1..]);
        assert a == [a[0]] + a[1..] && b == [b[0]] + b[1..];
      }
    }
  }

  ghost predicate Sorted(keys: seq<Key>) {
    forall i, j | 0 <= i < j < |keys| :: KeyBefore(keys[i], keys[j])
  }

  /** A strictly sorted list is determined by what is in it. */
  lemma {:induction false} SortedIsUnique(a: seq<Key>, b: seq<Key>)
    requires Sorted(a) && Sorted(b) && forall k :: k in a <==> k in b
    ensures a == b
  {
    assert a != [] ==> a[0] in a;
    assert b != [] ==> b[0] in b;
    if a != [] && b != [] {
      FirstIsLeast(a, b);
      assert a == [a[0]] + a[1..] && b == [b[0]] + b[1..];
      NotInTail(a);
      NotInTail(b);
      forall k ensures k in a[1..] <==> k in b[1..] {
        assert k in a <==> k in b;
      }
      SortedIsUnique(a[1..], b[1..]);
    }
  }

  lemma NotInTail(a: seq<Key>)
    requires a != [] && Sorted(a)
    ensures a[0] !in a[1..] && Sorted(a[1..])
  {
    KeyBeforeIsStrict(a[0]);
    forall i | 0 <= i < |a[1..]| ensures a[1..][i] != a[0] {
      assert KeyBefore(a[0], a[i + 1]);
    }
  }

  lemma FirstIsLeast(a: seq<Key>, b: seq<Key>)
    requires Sorted(a) && Sorted(b) && a != [] && b != []
    requires a[0] in b && b[0] in a
    ensures a[0] == b[0]
  {
    var i :| 0 <= i < |b| && b[i] == a[0];
    var j :| 0 <= j < |a| && a[j] == b[0];
    if i > 0 && j > 0 {
      KeyBeforeIsTransitive(a[0], b[0], a[0]);
      KeyBeforeIsStrict(a[0]);
    }
  }

  ghost predicate ShapedLike(k: Key, keys: seq<Key>) {
    forall i | 0 <= i < |keys| :: SameShape(k, keys[i])
  }

  /** Insert a new key into a sorted list. */
  function InsertKey(keys: seq<Key>, k: Key): (r: seq<Key>)
    requires Sorted(keys) && k !in keys && ShapedLike(k, keys)
    ensures Sorted(r) && forall x :: x in r <==> x in keys || x == k
  {
    if keys == [] then [k]
    else if KeyBefore(k, keys[0]) then
      FirstKey(keys, k);
      [k] + keys
    else
      NotInTail(keys);
      KeyBeforeIsTotal(k, keys[0]);
      assert keys == [keys[0]] + keys[1..];
      var rest := InsertKey(keys[1..], k);
      LaterKeys(keys, k, rest);
      [keys[0]] + rest
  }

  lemma FirstKey(keys: seq<Key>, k: Key)
    requires keys != [] && Sorted(keys) && KeyBefore(k, keys[0])
    ensures Sorted([k] + keys)
  {
    hide KeyBefore;
    forall j | 0 <= j < |keys| ensures KeyBefore(k, keys[j]) {
      if j > 0 {
        KeyBeforeIsTransitive(k, keys[0], keys[j]);
      }
    }
  }

  lemma LaterKeys(keys: seq<Key>, k: Key, rest: seq<Key>)
    requires keys != [] && Sorted(keys) && KeyBefore(keys[0], k) && Sorted(rest)
    requires forall x :: x in rest <==> x in keys[1..] || x == k
    ensures Sorted([keys[0]] + rest)
  {
    hide KeyBefore;
    forall j | 0 <= j < |rest| ensures KeyBefore(keys[0], rest[j]) {
      assert rest[j] in rest;
      if rest[j] != k {
        var i :| 0 <= i < |keys[1..]| && keys[1..][i] == rest[j];
        assert KeyBefore(keys[0], keys[i + 1]);
      }
    }
  }

  // ----- Sorted names -----

  function NameKeys(names: seq<string>): seq<Key> {
    seq(|names|, i requires 0 <= i < |names| => [Text(names[i])])
  }

  ghost predicate AllNameKeys(keys: seq<Key>) {
    forall i | 0 <= i < |keys| :: |keys[i]| == 1 && keys[i][0].Text?
  }

  function NamesOf(keys: seq<Key>): seq<string>
    requires AllNameKeys(keys)
  {
    seq(|keys|, i requires 0 <= i < |keys| => keys[i][0].s)
  }

  lemma NameKeysGrow(keys: seq<Key>, name: string, more: seq<Key>)
    requires AllNameKeys(keys) && forall k :: k in more <==> k in keys || k == [Text(name)]
    ensures AllNameKeys(more)
    ensures forall n :: [Text(n)] in more <==> [Text(n)] in keys || n == name
  {
    forall i | 0 <= i < |more| ensures |more[i]| == 1 && more[i][0].Text? {
      assert more[i] in more;
    }
    forall n ensures [Text(n)] == [Text(name)] <==> n == name {
      assert [Text(n)][0] == Text(n) && [Text(name)][0] == Text(name);
    }
  }

  lemma KeysAreListing(keys: seq<Key>, names: set<string>)
    requires Sorted(keys) && AllNameKeys(keys) && forall n :: [Text(n)] in keys <==> n in names
    ensures NameKeys(NamesOf(keys)) == keys
    ensures forall n :: n in NamesOf(keys) <==> n in names
  {
    assert NameKeys(NamesOf(keys)) == keys by {
      forall i | 0 <= i < |keys| ensures NameKeys(NamesOf(keys))[i] == keys[i] { }
    }
    forall n ensures n in NamesOf(keys) <==> [Text(n)] in keys {
      if n in NamesOf(keys) {
        var i :| 0 <= i < |keys| && NamesOf(keys)[i] == n;
        assert keys[i] == [Text(n)];
      }
      if [Text(n)] in keys {
        var i :| 0 <= i < |keys| && keys[i] == [Text(n)];
        assert NamesOf(keys)[i] == n;
      }
    }
  }

  lemma EmptyIsSorted()
    ensures Sorted([])
  {
  }

  /** `sorted(...)` over whatever order the names come in. */
  method SortSet(names: set<string>) returns (order: seq<string>)
    ensures Sorted(NameKeys(order)) && forall n :: n in order <==> n in names
  {
    hide Sorted, KeyBefore;
    var keys: seq<Key> := [];
    var remaining := names;
    EmptyIsSorted();
    while remaining != {}
      invariant remaining <= names && Sorted(keys) && AllNameKeys(keys)
      invariant forall n :: [Text(n)] in keys <==> n in names && n !in remaining
      decreases |remaining|
    {
      var name :| name in remaining;
      var was := keys;
      keys := InsertKey(keys, [Text(name)]);
      remaining := remaining - {name};
      NameKeysGrow(was, name, keys);
    }
    KeysAreListing(keys, names);
    order := NamesOf(keys);
  }

  lemma SortedNamesDistinct(names: seq<string>)
    requires Sorted(NameKeys(names))
    ensures Distinct(names)
  {
    hide KeyBefore;
    forall i, j | 0 <= i < j < |names| ensures names[i] != names[j] {
      assert KeyBefore(NameKeys(names)[i], NameKeys(names)[j]);
      KeyBeforeIsStrict(NameKeys(names)[i]);
    }
  }
}
