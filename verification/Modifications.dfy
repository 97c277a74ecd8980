/** The review blocks of one file: where each block sits in the original text and its verdict. */
module Modifications {
  import opened Lines

  datatype Option<+T> = None | Some(value: T)

  datatype Status = Pending | Applied | Rejected | Failed

  datatype Operation = Replace | Insert | Delete

  /** One block. Lines are counted from 1 and both ends are included, as the matcher reports them. */
  datatype Mod = Mod(
    id: string,
    operation: Operation,
    replace: Option<string>,
    matched: bool,
    startLine: int,
    endLine: int,
    status: Status,
    contentAtAccept: Option<string>)

  /** The matcher placed the block, so the line-range path can use it. */
  predicate Placed(m: Mod) {
    m.matched && m.startLine > 0
  }

  predicate AllPlaced(mods: seq<Mod>) {
    forall m :: m in mods ==> Placed(m)
  }

  /** The lines a block that is not rejected puts in place of its range. */
  function Replacement(m: Mod): seq<string> {
    if m.operation == Delete || m.replace == None then [] else Split(m.replace.value)
  }

  /** A block without the parts a verdict changes. */
  function Shape(m: Mod): Mod {
    m.(status := Pending, contentAtAccept := None)
  }

  function Shapes(mods: seq<Mod>): (r: seq<Mod>)
    ensures |r| == |mods|
    ensures forall i :: 0 <= i < |mods| ==> r[i] == Shape(mods[i])
  {
    seq(|mods|, i requires 0 <= i < |mods| => Shape(mods[i]))
  }

  /** Which blocks are rejected; nothing else about a verdict reaches the file. */
  function Verdicts(mods: seq<Mod>): (r: seq<bool>)
    ensures |r| == |mods|
    ensures forall i :: 0 <= i < |mods| ==> r[i] == mods[i].status.Rejected?
  {
    seq(|mods|, i requires 0 <= i < |mods| => mods[i].status.Rejected?)
  }
}
