/** The set that `collate_objects` methods add referenced classes to,
    recorded as the sequence of definition ids handed to `add_object`. The
    set's own de-duplication and its recursion into each added class belong
    to ObjectSet, which is not part of this model. */
module ObjectSets {
  class ObjectSet {
    var added: seq<string>

    constructor()
      ensures added == []
    {
      added := [];
    }

    /** `add_object` */
    method AddObject(id: string)
      modifies this
      ensures added == old(added) + [id]
    {
      added := added + [id];
    }
  }
}
