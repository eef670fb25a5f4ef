/** `MailService` of the notification service: a closed table from event
    type to (subject, text) and one synchronous send to the event's email.
    The mail transport is modelled as the log of messages it was asked to
    send and the log of those it delivered; whether it is up is an input. */
module Mail {
  import opened Wrappers
  import opened Events

  datatype MailMessage = MailMessage(to: string, subject: string, text: string)

  /** Whether the SMTP transport accepts the next message. */
  datatype Transport = Up | Down(reason: string)

  /** The `MailException` `JavaMailSender.send` throws. */
  datatype MailError = MailSendFailed(reason: string)

  const CreatedSubject: string := "Аккаунт создан"
  const CreatedText: string := "Здравствуйте! Ваш аккаунт на сайте был успешно создан."
  const DeletedSubject: string := "Аккаунт удалён"
  const DeletedText: string := "Здравствуйте! Ваш аккаунт был удалён"

  /** The `switch` of `sendFor`: (subject, text) for each event type. The
      enum is closed, so its `default` branch has no case here. */
  function Template(t: EventType): (r: (string, string))
    ensures t == UserCreated ==> r == (CreatedSubject, CreatedText)
    ensures t == UserDeleted ==> r == (DeletedSubject, DeletedText)
  {
    match t
    case UserCreated => (CreatedSubject, CreatedText)
    case UserDeleted => (DeletedSubject, DeletedText)
  }

  /** The message `sendFor` sends for an event. */
  function MessageFor(e: UserEvent): (m: MailMessage)
    ensures m.to == e.email
    ensures (m.subject, m.text) == Template(e.eventType)
  {
    MailMessage(e.email, Template(e.eventType).0, Template(e.eventType).1)
  }

  /** The subject tells the two event types apart. */
  lemma SubjectIdentifiesType(a: EventType, b: EventType)
    ensures Template(a).0 == Template(b).0 <==> a == b
  {
    if a != b {
      assert CreatedSubject[8] != DeletedSubject[8];
    }
  }

  /** End to end: the event the user store emits on a create (a delete)
      becomes a mail to the stored email with the creation (deletion) subject. */
  lemma LifecycleEventMail(eventId: string, userId: Option<int>, email: string, source: string, now: Instant)
    ensures MessageFor(Created(eventId, userId, email, source, now)) == MailMessage(email, CreatedSubject, CreatedText)
    ensures MessageFor(Deleted(eventId, userId, email, source, now)) == MailMessage(email, DeletedSubject, DeletedText)
  {
  }

  /** `JavaMailSender`. */
  class MailSender {
    var attempts: seq<MailMessage>
    var delivered: seq<MailMessage>

    constructor ()
      ensures attempts == [] && delivered == []
    {
      attempts, delivered := [], [];
    }

    /** `send(msg)`: one attempt; delivered when the transport is up, a
        MailError otherwise. */
    method Send(msg: MailMessage, transport: Transport) returns (r: Outcome<MailError>)
      modifies this
      ensures attempts == old(attempts) + [msg]
      ensures delivered == if transport.Up? then old(delivered) + [msg] else old(delivered)
      ensures r == if transport.Up? then Pass else Fail(MailSendFailed(transport.reason))
    {
      attempts := attempts + [msg];
      if transport.Down? {
        return Fail(MailSendFailed(transport.reason));
      }
      delivered := delivered + [msg];
      r := Pass;
    }
  }

  class MailService {
    const mailSender: MailSender

    constructor (mailSender: MailSender)
      ensures this.mailSender == mailSender
    {
      this.mailSender := mailSender;
    }

    /** `sendPlain`: exactly one send of the message (to, subject, text); a
        transport failure propagates, with no second attempt. */
    method SendPlain(to: string, subject: string, text: string, transport: Transport)
      returns (r: Outcome<MailError>)
      modifies mailSender
      ensures mailSender.attempts == old(mailSender.attempts) + [MailMessage(to, subject, text)]
      ensures mailSender.delivered ==
        if transport.Up? then old(mailSender.delivered) + [MailMessage(to, subject, text)]
        else old(mailSender.delivered)
      ensures r.Pass? <==> transport.Up?
      ensures transport.Down? ==> r == Fail(MailSendFailed(transport.reason))
    {
      var msg := MailMessage(to, subject, text);
      r := mailSender.Send(msg, transport);
    }

    /** `sendFor`: exactly one send, addressed to the event's email, with
        the subject and text of the event's type. */
    method SendFor(event: UserEvent, transport: Transport) returns (r: Outcome<MailError>)
      modifies mailSender
      ensures mailSender.attempts == old(mailSender.attempts) + [MessageFor(event)]
      ensures mailSender.delivered ==
        if transport.Up? then old(mailSender.delivered) + [MessageFor(event)]
        else old(mailSender.delivered)
      ensures r.Pass? <==> transport.Up?
      ensures transport.Down? ==> r == Fail(MailSendFailed(transport.reason))
    {
      var subject, text;
      match event.eventType {
        case UserCreated =>
          subject, text := CreatedSubject, CreatedText;
        case UserDeleted =>
          subject, text := DeletedSubject, DeletedText;
      }
      r := SendPlain(event.email, subject, text, transport);
    }
  }
}
