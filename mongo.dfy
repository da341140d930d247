/** The document store's identifiers: every saved document gets a fresh `_id`. */
module Mongo {
  import opened Wrappers

  type ObjectId = nat

  /** `Model.findById(id)` on a collection in insertion order, given how to read a document's `_id`. */
  function FindById<T>(docs: seq<T>, idOf: T -> ObjectId, id: ObjectId): (found: Option<T>)
    ensures found.Some? ==> found.value in docs && idOf(found.value) == id
    ensures found.None? <==> forall i :: 0 <= i < |docs| ==> idOf(docs[i]) != id
  {
    if docs == [] then None
    else if idOf(docs[0]) == id then Some(docs[0])
    else
      var rest := FindById(docs[1..], idOf, id);
      assert forall i :: 1 <= i < |docs| ==> docs[i] == docs[1..][i - 1];
      rest
  }

  /** A document appended under an id no stored document has is what `findById` then returns. */
  lemma {:induction false} FindByIdAppended<T>(docs: seq<T>, idOf: T -> ObjectId, d: T)
    requires forall i :: 0 <= i < |docs| ==> idOf(docs[i]) != idOf(d)
    ensures FindById(docs + [d], idOf, idOf(d)) == Some(d)
  {
    if docs != [] {
      assert (docs + [d])[1..] == docs[1..] + [d];
      FindByIdAppended(docs[1..], idOf, d);
    }
  }
}
