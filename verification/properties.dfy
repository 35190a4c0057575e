/** Properties that relate several resolver calls, or one resolver call
    under two different environments. */
module Properties {
  import opened Types
  import opened Store
  import opened Resolvers
  import Services

  /** A contact just added can be read back, field for field, under the
      identifier `addContact` returned. */
  lemma AddThenGet(c: Collection, env: Env, nombre: string, telefono: string, newId: Id)
    requires newId !in c && env.isValidId(newId)
    requires AddContact(c, env, nombre, telefono, newId).reply.Success?
    ensures var r := AddContact(c, env, nombre, telefono, newId);
            GetContact(r.store, env.isValidId, r.reply.value.id) == Success(r.reply.value)
  {
  }

  /** Deleting a stored contact answers true, and reading it afterwards
      reports it as not found. */
  lemma DeleteThenGet(c: Collection, isValidId: string -> bool, id: string)
    requires isValidId(id) && id in c
    ensures DeleteContact(c, isValidId, id).reply == Success(true)
    ensures GetContact(DeleteContact(c, isValidId, id).store, isValidId, id) == Failure(NotFound)
  {
  }

  /** A successful update is what `getContact` reads back afterwards: the
      phone path shows the new phone with the services' country and time,
      the name-only path the new name over the old phone. */
  lemma UpdateThenGet(c: Collection, env: Env, id: string, nombre: Option<string>, telefono: Option<string>)
    requires UpdateContact(c, env, id, nombre, telefono).reply.Success?
    ensures var after := UpdateContact(c, env, id, nombre, telefono).store;
            && GetContact(after, env.isValidId, id).Success?
            && (Given(telefono) ==>
                  GetContact(after, env.isValidId, id).value.contact
                  == Contact(if Given(nombre) then nombre.value else c[id].nombre, telefono.value,
                             Derived(env, telefono.value).0, Derived(env, telefono.value).1))
            && (!Given(telefono) ==>
                  GetContact(after, env.isValidId, id).value.contact == c[id].(nombre := nombre.value))
  {
  }

  /** Updating a contact to the phone it already has is refused: the phone
      check on the update path lets the target's own phone through, but the
      validation helper then counts every holder of the phone, the target
      included. Under the uniqueness invariant the refusal is always
      "already registered". */
  lemma UpdateToOwnPhoneFails(c: Collection, env: Env, id: string, nombre: Option<string>)
    requires id in c && c[id].telefono != ""
    requires HasApiKey(env) && env.isValidId(id)
    ensures var r := UpdateContact(c, env, id, nombre, Some(c[id].telefono));
            r.reply.Failure? && r.store == c
    ensures PhonesUnique(c) ==>
              UpdateContact(c, env, id, nombre, Some(c[id].telefono)) == Step(c, Failure(PhoneAlreadyRegistered))
  {
    assert PhoneTaken(c, c[id].telefono);
  }

  /** `getContact` refuses a malformed identifier without looking at the
      collection: the answer is the same whatever is stored. */
  lemma GetInvalidIdIgnoresStore(c: Collection, other: Collection, isValidId: string -> bool, id: string)
    requires !isValidId(id)
    ensures GetContact(c, isValidId, id) == GetContact(other, isValidId, id) == Failure(InvalidId)
  {
  }

  /** `updateContact` with nothing to update fails the same way whatever the
      identifier, the credential and the services are. */
  lemma UpdateNothingIgnoresEverythingElse(c: Collection, env: Env, other: Env, id: string, otherId: string,
                                           nombre: Option<string>, telefono: Option<string>)
    requires !Given(nombre) && !Given(telefono)
    ensures UpdateContact(c, env, id, nombre, telefono) == UpdateContact(c, other, otherId, nombre, telefono)
  {
  }

  /** The name-only path of `updateContact` consults neither service: its
      outcome is the same whatever the services would answer. */
  lemma NameOnlyUpdateAsksNoService(c: Collection, env: Env, validate: Services.PhoneService,
                                    worldTime: Services.TimeService, id: string, nombre: Option<string>,
                                    telefono: Option<string>)
    requires !Given(telefono)
    ensures UpdateContact(c, env, id, nombre, telefono)
         == UpdateContact(c, env.(validate := validate, worldTime := worldTime), id, nombre, telefono)
  {
  }

  /** `addContact` refuses a registered phone before calling any service:
      its outcome is the same whatever the services would answer. */
  lemma AddRegisteredPhoneAsksNoService(c: Collection, env: Env, validate: Services.PhoneService,
                                        worldTime: Services.TimeService, nombre: string, telefono: string,
                                        newId: Id)
    requires newId !in c && PhoneTaken(c, telefono)
    ensures AddContact(c, env, nombre, telefono, newId)
         == AddContact(c, env.(validate := validate, worldTime := worldTime), nombre, telefono, newId)
  {
  }
}
