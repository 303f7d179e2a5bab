/**
 * Portable stand-ins for the vector intrinsics the scan kernels apply to
 * one lane of bytes: the byte-compare against '\n' followed by
 * `movemask`, and what `__builtin_popcount` of that mask counts.
 */
module Lanes {
  import opened LineScan
  import opened Bits

  /** Byte-compare against '\n' followed by `movemask`: byte `j` of the
      lane becomes bit `j` of the mask. */
  function Movemask(lane: seq<Byte>): (m: nat)
    ensures forall j: nat :: Bit(m, j) <==> j < |lane| && lane[j] == NEWLINE
    ensures m == 0 <==> NoNewline(lane)
  {
    if lane == [] then
      assert forall j: nat :: !Bit(0, j) by {
        forall j: nat ensures !Bit(0, j) {
          ZeroBits(j);
        }
      }
      0
    else
      var b := if lane[0] == NEWLINE then 1 else 0;
      var rest := Movemask(lane[1..]);
      var m := b + 2 * rest;
      assert forall j: nat :: Bit(m, j) == if j == 0 then b == 1 else Bit(rest, j - 1) by {
        forall j: nat ensures Bit(m, j) == if j == 0 then b == 1 else Bit(rest, j - 1) {
          BitCons(b, rest, j);
        }
      }
      m
  }

  /** The popcount of a lane's mask is the number of newlines in the
      lane. */
  lemma {:induction false} PopcountLane(lane: seq<Byte>)
    ensures Popcount(Movemask(lane)) == CountNewlines(lane)
    decreases |lane|
  {
    if lane != [] {
      var b := if lane[0] == NEWLINE then 1 else 0;
      var rest := Movemask(lane[1..]);
      assert Movemask(lane) == b + 2 * rest;
      assert (b + 2 * rest) / 2 == rest && (b + 2 * rest) % 2 == b;
      PopcountLane(lane[1..]);
      CountNewlinesAppend([lane[0]], lane[1..]);
      assert [lane[0]] + lane[1..] == lane;
    }
  }
}
