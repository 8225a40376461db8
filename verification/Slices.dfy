/** How the runtime chooses the capacity of a slice it reallocates. */
module Slices {
  function GrowCap(newSize: nat, oldSize: nat, oldCap: nat): (c: nat)
    requires oldSize <= oldCap
    ensures c >= newSize
  {
    if newSize > oldCap + oldCap then newSize
    else if oldSize < 1024 then oldCap + oldCap
    else GrowByQuarters(newSize, oldCap)
  }

  function GrowByQuarters(newSize: nat, c: nat): (r: nat)
    requires c >= 1024
    ensures r >= newSize
    decreases newSize - c
  {
    if c < newSize then GrowByQuarters(newSize, c + c / 4) else c
  }

  function ShrinkCap(newSize: nat, oldCap: nat): (c: nat)
    requires newSize <= oldCap
    ensures newSize <= c <= oldCap
  {
    if oldCap > 8 && oldCap / 2 >= newSize then oldCap / 2 else oldCap
  }
}
