/** `DefaultCollectionInstanceProvider`: the empty collection a raw
    collection interface is created as. */
module DefaultCollectionInstanceProvider {
  import opened Types

  /** `provide`: `List` and `Collection` give a new empty `ArrayList`, `Set` a
      new empty `HashSet`, every other class (`LinkedList` among them) `null`. */
  function Provide(collectionClass: ClassName): (r: Option<Value>)
    ensures r.Some? <==> collectionClass in {LIST_CLASS, SET_CLASS, COLLECTION_CLASS}
    ensures collectionClass == SET_CLASS ==> r == Some(SetOf({}))
    ensures collectionClass in {LIST_CLASS, COLLECTION_CLASS} ==> r == Some(ListOf([]))
  {
    if collectionClass == LIST_CLASS then Some(ListOf([]))
    else if collectionClass == SET_CLASS then Some(SetOf({}))
    else if collectionClass == COLLECTION_CLASS then Some(ListOf([]))
    else None
  }
}
