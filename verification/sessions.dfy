/** A sequence of requests served one after another, and the collection it
    leaves behind. */
module Sessions {
  import opened Types
  import opened Store
  import opened Resolvers

  /** One GraphQL operation. `Add` carries the identifier the collection
      generates for the new document. */
  datatype Request =
    | ListAll
    | Get(id: string)
    | Add(nombre: string, telefono: string, newId: Id)
    | Update(id: string, newNombre: Option<string>, newTelefono: Option<string>)
    | Delete(id: string)

  /** The identifier generated for an `Add` is not stored yet. */
  predicate Applicable(c: Collection, req: Request) {
    req.Add? ==> req.newId !in c
  }

  /** The collection after serving one request. */
  function Apply(c: Collection, env: Env, req: Request): Collection
    requires Applicable(c, req)
  {
    match req
    case ListAll => c
    case Get(_) => c
    case Add(nombre, telefono, newId) => AddContact(c, env, nombre, telefono, newId).store
    case Update(id, nombre, telefono) => UpdateContact(c, env, id, nombre, telefono).store
    case Delete(id) => DeleteContact(c, env.isValidId, id).store
  }

  /** A request as it reaches the server: the operation, and the world it
      meets at that moment. The credential, the identifier check and the
      services' answers (the clock among them) may differ from one request
      to the next. */
  datatype Call = Call(env: Env, req: Request)

  /** Every `Add` in the session gets an identifier fresh at its turn. */
  predicate Runnable(c: Collection, calls: seq<Call>)
    decreases |calls|
  {
    calls == []
    || (Applicable(c, calls[0].req) && Runnable(Apply(c, calls[0].env, calls[0].req), calls[1..]))
  }

  /** The collection after serving the calls in order. */
  function Run(c: Collection, calls: seq<Call>): Collection
    requires Runnable(c, calls)
    decreases |calls|
  {
    if calls == [] then c else Run(Apply(c, calls[0].env, calls[0].req), calls[1..])
  }

  /** Served one at a time, no request breaks phone uniqueness, whatever
      each request's environment is. */
  lemma {:induction false} RunKeepsPhonesUnique(c: Collection, calls: seq<Call>)
    requires Runnable(c, calls)
    requires PhonesUnique(c)
    ensures PhonesUnique(Run(c, calls))
    decreases |calls|
  {
    if calls != [] {
      RunKeepsPhonesUnique(Apply(c, calls[0].env, calls[0].req), calls[1..]);
    }
  }

  /** Only `Add` creates identifiers, so a session without one ends with a
      subset of the identifiers it started with. */
  lemma {:induction false} RunWithoutAddCreatesNoIds(c: Collection, calls: seq<Call>)
    requires Runnable(c, calls)
    requires forall i :: 0 <= i < |calls| ==> !calls[i].req.Add?
    ensures Run(c, calls).Keys <= c.Keys
    decreases |calls|
  {
    if calls != [] {
      RunWithoutAddCreatesNoIds(Apply(c, calls[0].env, calls[0].req), calls[1..]);
    }
  }
}
