/** Bytes, big-endian integers, and the optional value and the extremes used everywhere. */
module Bytes {
  newtype byte = x: int | 0 <= x < 256

  datatype Option<+T> = None | Some(value: T)

  function Max(a: int, b: int): int { if a < b then b else a }

  function Min(a: int, b: int): int { if a < b then a else b }

  /** DataView.getUint16(offset, false) */
  function Be16(s: seq<byte>, at: nat): (v: nat)
    requires at + 2 <= |s|
    ensures v < 0x1_0000
  {
    s[at] as nat * 0x100 + s[at + 1] as nat
  }

  /** DataView.getUint32(offset, false) */
  function Be32(s: seq<byte>, at: nat): (v: nat)
    requires at + 4 <= |s|
    ensures v < 0x1_0000_0000
  {
    Be16(s, at) * 0x1_0000 + Be16(s, at + 2)
  }

  function Be16Bytes(v: nat): (s: seq<byte>)
    requires v < 0x1_0000
    ensures |s| == 2 && Be16(s, 0) == v
  {
    [(v / 0x100) as byte, (v % 0x100) as byte]
  }

  function Be32Bytes(v: nat): (s: seq<byte>)
    requires v < 0x1_0000_0000
    ensures |s| == 4 && Be32(s, 0) == v
  {
    Be16Bytes(v / 0x1_0000) + Be16Bytes(v % 0x1_0000)
  }

  /** Four bytes are the encoding of the number they decode to, wherever they stand. */
  lemma Be32Decodes(s: seq<byte>, at: nat)
    requires at + 4 <= |s|
    ensures s[at..at + 4] == Be32Bytes(Be32(s, at))
  {
    var high, low := Be16(s, at), Be16(s, at + 2);
    assert Be32(s, at) / 0x1_0000 == high && Be32(s, at) % 0x1_0000 == low;
    assert Be16Bytes(high) == s[at..at + 2] && Be16Bytes(low) == s[at + 2..at + 4];
    assert s[at..at + 4] == s[at..at + 2] + s[at + 2..at + 4];
  }

  lemma Be32Encoded(s: seq<byte>, at: nat, v: nat)
    requires at + 4 <= |s| && v < 0x1_0000_0000 && s[at..at + 4] == Be32Bytes(v)
    ensures Be32(s, at) == v
  {
  }

  function Flatten<T>(parts: seq<seq<T>>): seq<T> {
    if parts == [] then [] else parts[0] + Flatten(parts[1..])
  }

  lemma ConcatIsAssociative<T>(x: seq<T>, y: seq<T>, z: seq<T>)
    ensures (x + y) + z == x + (y + z)
  {
  }

  lemma {:induction false} FlattenAppend<T>(a: seq<seq<T>>, b: seq<seq<T>>)
    ensures Flatten(a + b) == Flatten(a) + Flatten(b)
  {
    if a == [] {
      assert a + b == b;
    } else {
      FlattenAppend(a[1..], b);
      assert (a + b)[0] == a[0] && (a + b)[1..] == a[1..] + b;
      ConcatIsAssociative(a[0], Flatten(a[1..]), Flatten(b));
    }
  }

  lemma FlattenSnoc<T>(a: seq<seq<T>>, x: seq<T>)
    ensures Flatten(a + [x]) == Flatten(a) + x
  {
    FlattenAppend(a, [x]);
    assert Flatten([x]) == x + Flatten([x][1..]);
  }

  lemma TakeThenDrop<T>(xs: seq<T>, k: nat)
    requires k <= |xs|
    ensures xs[..k] + xs[k..] == xs
  {
  }

  lemma FlattenSplit<T>(parts: seq<seq<T>>, k: nat)
    requires k <= |parts|
    ensures Flatten(parts) == Flatten(parts[..k]) + Flatten(parts[k..])
  {
    TakeThenDrop(parts, k);
    FlattenAppend(parts[..k], parts[k..]);
  }

  lemma FlattenTake<T>(parts: seq<seq<T>>, k: nat)
    requires k < |parts|
    ensures Flatten(parts[..k + 1]) == Flatten(parts[..k]) + parts[k]
  {
    FlattenSnoc(parts[..k], parts[k]);
    assert parts[..k + 1] == parts[..k] + [parts[k]];
  }
}
