/** Octets, and the few helpers every other module shares. */
module Bytes {

  /** An 8-bit unsigned octet. */
  type byte = bv8

  /** A double, as its 64 bits: NaNs and infinities are doubles like any other. */
  type double = bv64

  const COLON: byte := 0x3a
  const DOT: byte := 0x2e

  /** The lower case of an ASCII letter. */
  function ToLower(c: byte): byte {
    if 0x41 <= c <= 0x5a then c + 0x20 else c
  }

  datatype Option<+T> = None | Some(value: T)

  /** All the pieces of a list, end to end. */
  function Flatten<T>(pieces: seq<seq<T>>): seq<T> {
    if |pieces| == 0 then [] else pieces[0] + Flatten(pieces[1..])
  }

  lemma Regroup<T>(x: seq<T>, y: seq<T>, z: seq<T>)
    ensures x + (y + z) == x + y + z
  {
  }

  /** One piece more at the end. */
  lemma {:induction false} FlattenMore<T>(pieces: seq<seq<T>>, x: seq<T>)
    ensures Flatten(pieces + [x]) == Flatten(pieces) + x
    decreases |pieces|
  {
    if |pieces| == 0 {
      assert (pieces + [x])[1..] == [] && x + [] == x && [] + x == x;
    } else {
      assert (pieces + [x])[1..] == pieces[1..] + [x];
      FlattenMore(pieces[1..], x);
      Regroup(pieces[0], Flatten(pieces[1..]), x);
    }
  }
}
