/** The optional value and the arbitrary element shared by the other modules. */
module Wrappers {
  datatype Option<+T> = None | Some(value: T)

  // Some element of a non-empty set; callers may rely on nothing else about it.
  method AnyOf<T>(s: set<T>) returns (x: T)
    requires s != {}
    ensures x in s
  {
    x :| x in s;
  }

  lemma SomeOf<T>(s: set<T>) returns (x: T)
    requires s != {}
    ensures x in s
  {
    x :| x in s;
  }
}
