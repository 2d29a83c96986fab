/**
 * A node of the object graph as the walkers see it: the object, identified
 * by its address, and the name path by which it was reached from the
 * object that retains it (ivar names, struct type and member names).
 */
module GraphElements {
  import opened References

  datatype Element = Element(address: Address, namePath: seq<string>)
}
