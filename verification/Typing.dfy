/** The room that the buffer of the line has, key by key. Before it reads a key the program doubles the
    buffer if just two bytes are left in it, and it asks nothing else. */
module Typing {
  const FIRST := 64

  // The bytes of the line and of its buffer.
  datatype Room = Room(size: nat, capacity: nat)

  // What a key does to the bytes of the line.
  datatype Key = Typed(len: nat) | Erased(len: nat) | Moved

  // Overrun: the program writes behind the buffer.
  datatype Outcome = Within(room: Room) | Overrun

  // The test at the head of the loop of `xgetline`.
  function Grown(size: nat, capacity: nat): nat {
    if size + 2 == capacity then 2 * capacity else capacity
  }

  // The test and the key behind it. A codepoint is written with a zero behind the line.
  function Press(r: Room, k: Key): Outcome {
    var capacity := Grown(r.size, r.capacity);
    match k
    case Typed(len) => if r.size + len < capacity then Within(Room(r.size + len, capacity)) else Overrun
    case Erased(len) => Within(Room(if len <= r.size then r.size - len else r.size, capacity))
    case Moved => Within(Room(r.size, capacity))
  }

  function After(r: Room, keys: seq<Key>): Outcome
    decreases |keys|
  {
    if keys == [] then Within(r)
    else
      match Press(r, keys[0])
      case Within(next) => After(next, keys[1..])
      case Overrun => Overrun
  }

  /** A codepoint overruns the buffer exactly if it does not leave room for the zero, unless just two bytes
      were left. */
  lemma OverrunsExactly(r: Room, len: nat)
    requires len <= 4 && FIRST <= r.capacity
    ensures Press(r, Typed(len)).Overrun? <==> r.size + 2 != r.capacity && r.size + len >= r.capacity
  {}

  // Every codepoint has one of these lengths.
  predicate From(keys: seq<Key>, lengths: set<nat>) {
    forall k :: k in keys ==> k.Moved? || k.len in lengths
  }

  ghost predicate NeverOverruns(lengths: set<nat>) {
    forall keys :: From(keys, lengths) ==> After(Room(0, FIRST), keys) != Overrun
  }

  // With codepoints of n bytes, where n is one or two, the test comes at two bytes left or before.
  lemma {:induction false} OneLength(r: Room, keys: seq<Key>, lengths: set<nat>, n: nat)
    requires From(keys, lengths) && lengths <= {n} && 1 <= n <= 2
    requires r.size + 2 <= r.capacity && (n == 2 ==> r.size % 2 == 0 && r.capacity % 2 == 0)
    ensures After(r, keys) != Overrun
    decreases |keys|
  {
    if keys != [] {
      assert keys[0] in keys;
      assert forall k :: k in keys[1..] ==> k in keys;
      var next := Press(r, keys[0]);
      assert next.Within?;
      OneLength(next.room, keys[1..], lengths, n);
    }
  }

  function Times(n: nat, count: nat): seq<Key> {
    if count == 0 then [] else [Typed(n)] + Times(n, count - 1)
  }

  lemma {:induction false} TimesFrom(n: nat, count: nat, lengths: set<nat>)
    requires n in lengths
    ensures From(Times(n, count), lengths)
  {
    if count > 0 {
      TimesFrom(n, count - 1, lengths);
    }
  }

  // Codepoints of one length, up to a size that is reached without the test coming true.
  lemma {:induction false} TimesFill(size: nat, n: nat, count: nat, rest: seq<Key>)
    requires 1 <= n && size + n * count < FIRST && (count > 0 ==> size + n * (count - 1) < FIRST - 2)
    ensures After(Room(size, FIRST), Times(n, count) + rest) == After(Room(size + n * count, FIRST), rest)
    decreases count
  {
    if count == 0 {
      assert Times(n, 0) + rest == rest;
    } else {
      Successor(n, count - 1);
      if count > 1 {
        Successor(n, count - 2);
      }
      assert (Times(n, count) + rest)[1..] == Times(n, count - 1) + rest;
      TimesFill(size + n, n, count - 1, rest);
    }
  }

  lemma Successor(n: nat, k: nat)
    ensures n * (k + 1) == n * k + n && n * k >= 0
  {}

  /** The test is stepped over: sixty-one codepoints of one byte, one of two, and any other writes behind the
      buffer of sixty-four bytes. */
  lemma SteppedOver(len: nat)
    requires len >= 1
    ensures After(Room(0, FIRST), Times(1, 61) + [Typed(2), Typed(len)]) == Overrun
  {
    TimesFill(0, 1, 61, [Typed(2), Typed(len)]);
    Twice(Typed(2), Typed(len));
    hide Times;
  }

  lemma Twice(a: Key, b: Key)
    ensures [a, b][1..] == [b]
  {}

  // Twenty-one codepoints of three bytes step over it too, and fifteen of four.
  lemma LongOverruns(len: nat)
    requires len == 3 || len == 4
    ensures After(Room(0, FIRST), Times(len, if len == 3 then 21 else 15) + [Typed(len)]) == Overrun
  {
    TimesFill(0, len, if len == 3 then 21 else 15, [Typed(len)]);
    hide Times;
  }

  /** The test keeps the room, whatever is typed, erased and moved over in any order, if and only if all
      codepoints have one byte or all have two. */
  lemma NeverOverrunsExactly(lengths: set<nat>)
    requires lengths <= {1, 2, 3, 4}
    ensures NeverOverruns(lengths) <==> lengths <= {1} || lengths <= {2}
  {
    hide After, Times;
    if lengths <= {1} || lengths <= {2} {
      var n := if lengths <= {1} then 1 else 2;
      forall keys | From(keys, lengths) ensures After(Room(0, FIRST), keys) != Overrun {
        OneLength(Room(0, FIRST), keys, lengths, n);
      }
    } else if 3 in lengths || 4 in lengths {
      var n := if 3 in lengths then 3 else 4;
      var keys := Times(n, if n == 3 then 21 else 15);
      TimesFrom(n, if n == 3 then 21 else 15, lengths);
      LongOverruns(n);
      assert From(keys + [Typed(n)], lengths);
    } else {
      assert 1 in lengths && 2 in lengths;
      TimesFrom(1, 61, lengths);
      SteppedOver(1);
      assert From(Times(1, 61) + [Typed(2), Typed(1)], lengths);
    }
  }
}
