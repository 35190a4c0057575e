/** The five GraphQL resolvers as transitions of the `users` collection. A
    resolver takes the collection and returns a `Step`: the collection after
    the call and the reply (a value, or the error it raises). */
module Resolvers {
  import opened Types
  import opened Store
  import opened Services

  /** Everything a resolver sees besides the collection: the `API_KEY`
      setting, the identifier syntax check (`ObjectId.isValid`), and the two
      third-party services. */
  datatype Env = Env(
    apiKey: Option<string>,
    isValidId: string -> bool,
    validate: PhoneService,
    worldTime: TimeService)

  /** `API_KEY` is usable when it is set and not empty. */
  predicate HasApiKey(env: Env) {
    Given(env.apiKey)
  }

  datatype Step<+T> = Step(store: Collection, reply: Result<T>)

  /** The country and current time the services derive for a phone: the
      validation reply's `country`, and the time service's `datetime` for it. */
  function Derived(env: Env, telefono: string): (string, string) {
    var pais := env.validate(telefono).country;
    (pais, env.worldTime(pais).datetime)
  }

  /** Both services accept the phone: validation answers 200 with `is_valid`,
      and the time service answers 200 for the country it reports. */
  predicate ServicesAccept(env: Env, telefono: string) {
    var reply := env.validate(telefono);
    reply.status == HttpOk && reply.isValid && env.worldTime(reply.country).status == HttpOk
  }

  /** The phone-validation then time-lookup sequence shared by the two
      mutations that write a phone: the derived `(pais, horaActual)`. */
  function ValidateAndLocate(c: Collection, env: Env, telefono: string): (r: Result<(string, string)>)
    ensures r.Success? <==> !PhoneTaken(c, telefono) && ServicesAccept(env, telefono)
    ensures r.Success? ==> r.value == Derived(env, telefono)
    ensures PhoneTaken(c, telefono) ==> r == Failure(PhoneAlreadyRegistered)
    ensures !PhoneTaken(c, telefono) && env.validate(telefono).status != HttpOk ==> r == Failure(ServiceError)
    ensures !PhoneTaken(c, telefono) && env.validate(telefono).status == HttpOk && !env.validate(telefono).isValid
            ==> r == Failure(PhoneNotValid)
    ensures !PhoneTaken(c, telefono) && env.validate(telefono).status == HttpOk && env.validate(telefono).isValid
            && env.worldTime(env.validate(telefono).country).status != HttpOk
            ==> r == Failure(ServiceError)
  {
    match ValidarTelefono(c, env.validate, telefono)
    case Failure(e) => Failure(e)
    case Success(reply) =>
      match ConseguirHora(env.worldTime, reply.country)
      case Failure(e) => Failure(e)
      case Success(hora) => Success((reply.country, hora))
  }

  /** `getContacts`: every stored contact exactly once, with its identifier,
      in whatever order the collection yields them. */
  method GetContacts(c: Collection) returns (docs: seq<Document>)
    ensures |docs| == |c|
    ensures forall i :: 0 <= i < |docs| ==> docs[i].id in c && c[docs[i].id] == docs[i].contact
    ensures forall id :: id in c ==> exists i :: 0 <= i < |docs| && docs[i].id == id
    ensures forall i, j :: 0 <= i < j < |docs| ==> docs[i].id != docs[j].id
  {
    docs := [];
    var pending := c.Keys;
    while pending != {}
      invariant pending <= c.Keys
      invariant |docs| + |pending| == |c|
      invariant forall i :: 0 <= i < |docs| ==> docs[i].id in c && docs[i].id !in pending && c[docs[i].id] == docs[i].contact
      invariant forall id :: id in c && id !in pending ==> exists i :: 0 <= i < |docs| && docs[i].id == id
      invariant forall i, j :: 0 <= i < j < |docs| ==> docs[i].id != docs[j].id
      decreases pending
    {
      var k :| k in pending;
      var listed := docs;
      docs := docs + [Document(k, c[k])];
      pending := pending - {k};
      forall id | id in c && id !in pending
        ensures exists i :: 0 <= i < |docs| && docs[i].id == id
      {
        if id == k {
          assert docs[|listed|].id == id;
        } else {
          var i :| 0 <= i < |listed| && listed[i].id == id;
          assert docs[i].id == id;
        }
      }
    }
  }

  /** `getContact`: refuses a malformed identifier before any lookup, reports
      an identifier nobody has as not found, and otherwise returns the stored
      contact. */
  function GetContact(c: Collection, isValidId: string -> bool, id: string): (r: Result<Document>)
    ensures !isValidId(id) ==> r == Failure(InvalidId)
    ensures isValidId(id) && id !in c ==> r == Failure(NotFound)
    ensures r.Success? <==> isValidId(id) && id in c
    ensures r.Success? ==> r.value.id == id && r.value.contact == c[id]
  {
    if !isValidId(id) then Failure(InvalidId)
    else if id !in c then Failure(NotFound)
    else Success(Document(id, c[id]))
  }

  /** `addContact`: checks the credential, then the phone's uniqueness, then
      the two services, and only then inserts one new contact under the
      fresh identifier the collection generates. Every failure leaves the
      collection as it was. */
  function AddContact(c: Collection, env: Env, nombre: string, telefono: string, newId: Id): (r: Step<Document>)
    requires newId !in c
    ensures !HasApiKey(env) ==> r == Step(c, Failure(MissingApiKey))
    ensures HasApiKey(env) && PhoneTaken(c, telefono) ==> r == Step(c, Failure(PhoneAlreadyRegistered))
    ensures HasApiKey(env) && !PhoneTaken(c, telefono) && env.validate(telefono).status != HttpOk
            ==> r == Step(c, Failure(ServiceError))
    ensures HasApiKey(env) && !PhoneTaken(c, telefono) && env.validate(telefono).status == HttpOk
            && !env.validate(telefono).isValid
            ==> r == Step(c, Failure(PhoneNotValid))
    ensures HasApiKey(env) && !PhoneTaken(c, telefono) && env.validate(telefono).status == HttpOk
            && env.validate(telefono).isValid && env.worldTime(env.validate(telefono).country).status != HttpOk
            ==> r == Step(c, Failure(ServiceError))
    ensures r.reply.Failure? ==> r.store == c
    ensures r.reply.Success? <==> HasApiKey(env) && !PhoneTaken(c, telefono) && ServicesAccept(env, telefono)
    ensures r.reply.Success? ==>
              var added := Contact(nombre, telefono, Derived(env, telefono).0, Derived(env, telefono).1);
              && r.reply.value == Document(newId, added)
              && r.store.Keys == c.Keys + {newId}
              && r.store[newId] == added
              && (forall k :: k in c ==> r.store[k] == c[k])
    ensures PhonesUnique(c) ==> PhonesUnique(r.store)
  {
    if !HasApiKey(env) then Step(c, Failure(MissingApiKey))
    else
      match ValidateAndLocate(c, env, telefono)
      case Failure(e) => Step(c, Failure(e))
      case Success(derived) =>
        var added := Contact(nombre, telefono, derived.0, derived.1);
        Step(Insert(c, newId, added), Success(Document(newId, added)))
  }

  /** The checks `updateContact` makes before it branches all pass: some
      value to update, a credential, a well-formed identifier that is stored. */
  predicate UpdateTargetFound(c: Collection, env: Env, id: string, nombre: Option<string>, telefono: Option<string>) {
    (Given(nombre) || Given(telefono)) && HasApiKey(env) && env.isValidId(id) && id in c
  }

  /** `updateContact`. The checks come in a fixed order: something to update
      (an empty string counts as absent), the credential, the identifier's
      syntax, the identifier's presence. Without a phone only `nombre`
      changes and no service is asked. With a phone, a phone held by any
      stored contact, the target included, is refused; otherwise `telefono`,
      `pais` and `horaActual` are rewritten from the services and `nombre`
      becomes the given name or stays. No other contact changes. */
  function UpdateContact(c: Collection, env: Env, id: string, nombre: Option<string>, telefono: Option<string>): (r: Step<()>)
    ensures !Given(nombre) && !Given(telefono) ==> r == Step(c, Failure(NothingToUpdate))
    ensures (Given(nombre) || Given(telefono)) && !HasApiKey(env) ==> r == Step(c, Failure(MissingApiKey))
    ensures (Given(nombre) || Given(telefono)) && HasApiKey(env) && !env.isValidId(id)
            ==> r == Step(c, Failure(InvalidId))
    ensures (Given(nombre) || Given(telefono)) && HasApiKey(env) && env.isValidId(id) && id !in c
            ==> r == Step(c, Failure(NotFound))
    ensures r.reply.Failure? ==> r.store == c
    ensures r.store.Keys == c.Keys
    ensures forall k :: k in c && k != id ==> r.store[k] == c[k]
    // the name-only path
    ensures UpdateTargetFound(c, env, id, nombre, telefono) && !Given(telefono)
            ==> r.reply.Success? && r.store[id] == c[id].(nombre := nombre.value)
    // the phone path: refusals
    ensures UpdateTargetFound(c, env, id, nombre, telefono) && Given(telefono)
            && PhoneTakenByOther(c, telefono.value, id)
            ==> r == Step(c, Failure(PhoneExists))
    ensures UpdateTargetFound(c, env, id, nombre, telefono) && Given(telefono)
            && !PhoneTakenByOther(c, telefono.value, id) && PhoneTaken(c, telefono.value)
            ==> r == Step(c, Failure(PhoneAlreadyRegistered))
    ensures UpdateTargetFound(c, env, id, nombre, telefono) && Given(telefono) && !PhoneTaken(c, telefono.value)
            && env.validate(telefono.value).status != HttpOk
            ==> r == Step(c, Failure(ServiceError))
    ensures UpdateTargetFound(c, env, id, nombre, telefono) && Given(telefono) && !PhoneTaken(c, telefono.value)
            && env.validate(telefono.value).status == HttpOk && !env.validate(telefono.value).isValid
            ==> r == Step(c, Failure(PhoneNotValid))
    ensures UpdateTargetFound(c, env, id, nombre, telefono) && Given(telefono) && !PhoneTaken(c, telefono.value)
            && env.validate(telefono.value).status == HttpOk && env.validate(telefono.value).isValid
            && env.worldTime(env.validate(telefono.value).country).status != HttpOk
            ==> r == Step(c, Failure(ServiceError))
    // the phone path: when it succeeds, and what it writes
    ensures UpdateTargetFound(c, env, id, nombre, telefono) && Given(telefono)
            ==> (r.reply.Success? <==> !PhoneTaken(c, telefono.value) && ServicesAccept(env, telefono.value))
    ensures r.reply.Success? && Given(telefono) ==>
              r.store[id] == Contact(
                if Given(nombre) then nombre.value else c[id].nombre,
                telefono.value,
                Derived(env, telefono.value).0,
                Derived(env, telefono.value).1)
    ensures PhonesUnique(c) ==> PhonesUnique(r.store)
  {
    if !Given(nombre) && !Given(telefono) then Step(c, Failure(NothingToUpdate))
    else if !HasApiKey(env) then Step(c, Failure(MissingApiKey))
    else if !env.isValidId(id) then Step(c, Failure(InvalidId))
    else if id !in c then Step(c, Failure(NotFound))
    else
      var user := c[id];
      if !Given(telefono) then
        Step(UpdateOne(c, id, user.(nombre := nombre.value)), Success(()))
      else if PhoneTakenByOther(c, telefono.value, id) then
        Step(c, Failure(PhoneExists))
      else
        match ValidateAndLocate(c, env, telefono.value)
        case Failure(e) => Step(c, Failure(e))
        case Success(derived) =>
          var nuevoNombre := if Given(nombre) then nombre.value else user.nombre;
          Step(UpdateOne(c, id, Contact(nuevoNombre, telefono.value, derived.0, derived.1)), Success(()))
  }

  /** `deleteContact`: refuses a malformed identifier; otherwise removes the
      contact under it, if any, and answers whether one was removed. */
  function DeleteContact(c: Collection, isValidId: string -> bool, id: string): (r: Step<bool>)
    ensures !isValidId(id) ==> r == Step(c, Failure(InvalidId))
    ensures isValidId(id) ==> r.reply == Success(id in c)
    ensures r.reply == Success(true) ==> r.store.Keys == c.Keys - {id} && |r.store| == |c| - 1
    ensures r.reply != Success(true) ==> r.store == c
    ensures forall k :: k in r.store ==> r.store[k] == c[k]
    ensures PhonesUnique(c) ==> PhonesUnique(r.store)
  {
    if !isValidId(id) then Step(c, Failure(InvalidId))
    else
      var (rest, deletedCount) := DeleteOne(c, id);
      if deletedCount == 0 then Step(c, Success(false))
      else Step(rest, Success(true))
  }
}
