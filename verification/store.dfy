/** The `users` collection as an immutable finite map from identifier to
    contact, with the few collection operations the resolvers use: count and
    find by exact phone, list everything, insert, set fields by identifier,
    and delete by identifier. */
module Store {
  import opened Types

  type Collection = map<Id, Contact>

  /** Some stored contact has phone `telefono`. */
  predicate PhoneTaken(c: Collection, telefono: string) {
    exists k :: k in c && c[k].telefono == telefono
  }

  /** Some stored contact other than `id` has phone `telefono`. */
  predicate PhoneTakenByOther(c: Collection, telefono: string, id: Id) {
    exists k :: k in c && c[k].telefono == telefono && k != id
  }

  /** The invariant the add and update resolvers try to keep: no two stored
      contacts share a phone. */
  predicate PhonesUnique(c: Collection) {
    forall a, b :: a in c && b in c && a != b ==> c[a].telefono != c[b].telefono
  }

  /** The identifiers of the contacts whose phone is `telefono`. The
      membership clause is the fact `HoldersCount` needs to turn a stored
      holder into a non-empty set. */
  function HoldersOf(c: Collection, telefono: string): (ids: set<Id>)
    ensures forall k :: k in ids <==> k in c && c[k].telefono == telefono
  {
    set k | k in c && c[k].telefono == telefono
  }

  /** `countDocuments({ telefono })`: how many stored contacts have the phone.
      It is positive exactly when the phone is taken, and under the
      uniqueness invariant it is at most one. */
  function CountByPhone(c: Collection, telefono: string): (n: nat)
    ensures n > 0 <==> PhoneTaken(c, telefono)
    ensures PhonesUnique(c) ==> n <= 1
  {
    HoldersCount(c, telefono);
    |HoldersOf(c, telefono)|
  }

  /** A phone has a holder exactly when it is taken, and under the uniqueness
      invariant it has at most one. */
  lemma HoldersCount(c: Collection, telefono: string)
    ensures |HoldersOf(c, telefono)| > 0 <==> PhoneTaken(c, telefono)
    ensures PhonesUnique(c) ==> |HoldersOf(c, telefono)| <= 1
  {
    var ids := HoldersOf(c, telefono);
    if ids != {} {
      var k :| k in ids;
      if PhonesUnique(c) {
        assert ids == {k};
      }
    }
  }

  /** `insertOne`: a new document under an identifier the collection does not
      hold yet. */
  function Insert(c: Collection, id: Id, contact: Contact): (c': Collection)
    requires id !in c
    ensures c'.Keys == c.Keys + {id}
    ensures |c'| == |c| + 1
    ensures c'[id] == contact
    ensures forall k :: k in c ==> c'[k] == c[k]
  {
    c[id := contact]
  }

  /** `findOneAndUpdate({ _id }, { $set })` on a stored identifier: the
      document under `id` becomes `contact`; no other document changes. */
  function UpdateOne(c: Collection, id: Id, contact: Contact): (c': Collection)
    requires id in c
    ensures c'.Keys == c.Keys
    ensures c'[id] == contact
    ensures forall k :: k in c && k != id ==> c'[k] == c[k]
  {
    c[id := contact]
  }

  /** `deleteOne({ _id })`: the collection without the identifier, and the
      number of documents removed. */
  function DeleteOne(c: Collection, id: Id): (r: (Collection, nat))
    ensures r.0.Keys == c.Keys - {id}
    ensures forall k :: k in r.0 ==> r.0[k] == c[k]
    ensures r.1 == (if id in c then 1 else 0)
    ensures r.1 == |c| - |r.0|
  {
    var c' := map k | k in c && k != id :: c[k];
    assert c'.Keys == c.Keys - {id};
    if id in c then (c', 1) else (c', 0)
  }
}
