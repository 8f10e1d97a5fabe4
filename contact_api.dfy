/**
 * The outcome handling of `grwc_create_contact`: which responses of the
 * GetResponse contacts endpoint are written to the error log.
 */
module ContactApi {
  import opened Wrappers

  /**
   * What `wp_remote_post` hands back: a transport failure (a `WP_Error`), or a
   * reply whose status code may be missing (`wp_remote_retrieve_response_code`
   * then returns '').
   */
  datatype Response = TransportError(message: string) | Reply(code: Option<int>, body: string)

  /** Whether the call leaves a line in the error log. */
  datatype Verdict = Logged | Silent

  /** "409 Conflict" (section 15.5.10 of RFC 9110): the contact is already on the campaign. */
  const Conflict: int := 409

  /**
   * The branch in `grwc_create_contact`: a transport error is logged; a reply
   * is logged when its code is not 409 and at least 400. A missing code
   * compares as '' and is never at least 400.
   */
  function Classify(r: Response): (v: Verdict)
    ensures v == Logged <==>
      r.TransportError? || (r.code.Some? && r.code.value >= 400 && r.code.value != Conflict)
  {
    match r
    case TransportError(_) => Logged
    case Reply(code, _) =>
      if code.Some? && Conflict != code.value && code.value >= 400 then Logged else Silent
  }

  /** The outcomes of a contact call as the design names them. */
  datatype Outcome = TransportFailure | AlreadySubscribed | RemoteRejection(status: int) | Accepted

  /**
   * The outcome of a response: transport failure; 409 means the contact exists;
   * any other code of 400 or more is a rejection; everything else is success.
   */
  function OutcomeOf(r: Response): Outcome {
    match r
    case TransportError(_) => TransportFailure
    case Reply(code, _) =>
      if code == Some(Conflict) then AlreadySubscribed
      else if code.Some? && code.value >= 400 then RemoteRejection(code.value)
      else Accepted
  }

  /** The classes of status codes of section 15 of RFC 9110, by first digit. */
  datatype StatusClass = Informational | Successful | Redirection | ClientError | ServerError

  function ClassOf(code: int): StatusClass
    requires 100 <= code <= 599
  {
    if code < 200 then Informational
    else if code < 300 then Successful
    else if code < 400 then Redirection
    else if code < 500 then ClientError
    else ServerError
  }

  /** Exactly the transport failures and the rejections are logged; 409 and successes are silent. */
  lemma LoggedIffFailure(r: Response)
    ensures Classify(r) == Logged <==> (OutcomeOf(r).TransportFailure? || OutcomeOf(r).RemoteRejection?)
    ensures Classify(r) == Silent <==> (OutcomeOf(r).AlreadySubscribed? || OutcomeOf(r).Accepted?)
  {
  }

  /**
   * On a status code of RFC 9110, a reply is logged exactly when it is a client
   * or server error other than 409 Conflict.
   */
  lemma LoggedByStatusClass(code: int, body: string)
    requires 100 <= code <= 599
    ensures Classify(Reply(Some(code), body)) == Logged <==>
      (ClassOf(code) == ClientError || ClassOf(code) == ServerError) && code != Conflict
  {
  }
}
