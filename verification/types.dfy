/** The records the resolvers work on: the stored contact, the replies of the
    two third-party services, and the GraphQL errors the resolvers raise. */
module Types {

  /** An identifier of a stored contact, in its textual form (the `id`
      argument of the queries and mutations). */
  type Id = string

  /** A stored contact document, without its identifier. `pais` and
      `horaActual` are derived from the phone-validation and time services;
      the client never supplies them. */
  datatype Contact = Contact(nombre: string, telefono: string, pais: string, horaActual: string)

  /** A contact together with the identifier the collection assigned to it,
      as the resolvers return it (the document's `_id`). */
  datatype Document = Document(id: Id, contact: Contact)

  /** What the phone-validation service answered: the HTTP status and, when
      the status is 200, the `is_valid` and `country` fields of the JSON body. */
  datatype PhoneReply = PhoneReply(status: int, isValid: bool, country: string)

  /** What the world-time service answered: the HTTP status and, when it is
      200, the `datetime` field of the JSON body. */
  datatype TimeReply = TimeReply(status: int, datetime: string)

  /** The HTTP status the resolvers treat as success. */
  const HttpOk := 200

  /** The GraphQL errors the resolvers raise, one constructor per message. */
  datatype Error =
    | MissingApiKey          // no service credential configured
    | InvalidId              // the identifier is not well formed
    | NotFound               // no contact has the identifier
    | NothingToUpdate        // updateContact got neither a name nor a phone
    | PhoneAlreadyRegistered // some stored contact already has the phone
    | PhoneExists            // another contact already has the phone (update)
    | PhoneNotValid          // the validation service says the phone is not valid
    | ServiceError           // a service answered with a status other than 200
  {
    /** The message of the GraphQL error. The resolvers spell a few of them
        slightly differently (an accent in "válido" on the update path, a
        trailing space in the credential message of `addContact`); this is
        one spelling of each. Distinct errors carry distinct messages, the
        only way a client can tell them apart. */
    function Message(): string {
      match this
      case MissingApiKey => "Necesitas una API Ninja."
      case InvalidId => "El ID no es valido."
      case NotFound => "Usuario no encontrado."
      case NothingToUpdate => "You must at least update one value"
      case PhoneAlreadyRegistered => "El teléfono ya está registrado."
      case PhoneExists => "El telefono ya existe"
      case PhoneNotValid => "El número de teléfono no es válido."
      case ServiceError => "API Ninja Error"
    }
  }

  /** No two errors of the model share a message. This holds for the one
      spelling `Message` gives each error; `ServiceError` stands for both
      services' failures, so its message does not say which one failed. */
  lemma MessagesDistinct(a: Error, b: Error)
    ensures a.Message() == b.Message() ==> a == b
  {
  }

  /** The outcome of a resolver: its value, or the error it raises. */
  datatype Result<+T> = Success(value: T) | Failure(error: Error)

  /** An optional text argument counts as given, in the resolvers' sense,
      when it is present and not the empty string. */
  predicate Given(arg: Option<string>) {
    arg.Some? && arg.value != ""
  }

  datatype Option<+T> = None | Some(value: T)
}
