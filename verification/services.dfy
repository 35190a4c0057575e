/** The two helpers the mutations share. The third-party services are
    oracles: a function from the query argument to the reply the service
    gives, with the configured credential already in the request. */
module Services {
  import opened Types
  import opened Store

  /** The phone-validation service, queried with a phone number. */
  type PhoneService = string -> PhoneReply

  /** The world-time service, queried with a country. */
  type TimeService = string -> TimeReply

  /** `conseguirHora`: the current time the service reports for `pais`, or a
      service error when it does not answer with status 200. */
  function ConseguirHora(worldTime: TimeService, pais: string): (r: Result<string>)
    ensures r.Success? <==> worldTime(pais).status == HttpOk
    ensures r.Success? ==> r.value == worldTime(pais).datetime
    ensures r.Failure? ==> r.error == ServiceError
  {
    var reply := worldTime(pais);
    if reply.status != HttpOk then Failure(ServiceError)
    else Success(reply.datetime)
  }

  /** `validarTelefono`: first refuses a phone some stored contact already has
      (without asking the service), then asks the service and refuses a
      non-200 status or a phone it reports as not valid. A reply it returns
      always says the phone is valid. */
  function ValidarTelefono(c: Collection, validate: PhoneService, telefono: string): (r: Result<PhoneReply>)
    ensures PhoneTaken(c, telefono) ==> r == Failure(PhoneAlreadyRegistered)
    ensures !PhoneTaken(c, telefono) && validate(telefono).status != HttpOk ==> r == Failure(ServiceError)
    ensures !PhoneTaken(c, telefono) && validate(telefono).status == HttpOk && !validate(telefono).isValid
            ==> r == Failure(PhoneNotValid)
    ensures r.Success? <==> !PhoneTaken(c, telefono) && validate(telefono).status == HttpOk && validate(telefono).isValid
    ensures r.Success? ==> r.value == validate(telefono) && r.value.isValid
  {
    if CountByPhone(c, telefono) > 0 then Failure(PhoneAlreadyRegistered)
    else
      var reply := validate(telefono);
      if reply.status != HttpOk then Failure(ServiceError)
      else if !reply.isValid then Failure(PhoneNotValid)
      else Success(reply)
  }
}
