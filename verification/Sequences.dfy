/** What the models share about sequences. */
module Sequences {

  ghost predicate Distinct<T(!new)>(items: seq<T>) {
    forall i, j | 0 <= i < j < |items| :: items[i] != items[j]
  }
}
