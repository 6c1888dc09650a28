/** Names of equivalence classes, and assignments of words to them. */
module Classes {
  import opened Words

  type Id = nat
  type Values = Id -> Word

  /** The classes on a stack. */
  function ClassesIn(stack: map<int, Id>): set<Id> { set h | h in stack :: stack[h] }
}
