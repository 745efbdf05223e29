/** What may be missing, and a fact about working through a set. */
module Wrappers {
  datatype Option<+T> = None | Some(value: T)

  lemma OneLess<T>(all: set<T>, rest: set<T>, a: T)
    requires a in rest && rest <= all
    ensures all - (rest - {a}) == (all - rest) + {a} && |rest - {a}| < |rest|
  {
  }
}
