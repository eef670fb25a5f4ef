/** `UserEventProducer`: derives the record key from the user id and hands
    (topic, key, event) to the Kafka template exactly once. The template is
    modelled as the log of records handed to it; how the broker eventually
    answers is an input. */
module Producer {
  import opened Wrappers
  import Decimal
  import opened Events

  /** Default of `app.kafka.user-topic`. */
  const DefaultTopic: string := "user.account"

  /** `String.valueOf(event.getUserId())`: the decimal form of the id, or
      "null" for a null id. The id can be read back from the key. */
  function RecordKey(userId: Option<int>): (key: string)
    ensures key == "null" <==> userId.None?
    ensures userId.Some? ==> Decimal.ParseLong(key) == userId
  {
    match userId
    case None => "null"
    case Some(n) =>
      Decimal.LongRoundTrip(n);
      assert Decimal.ParseLong("null") == None by {
        assert !Decimal.IsDigit("null"[0]);
      }
      Decimal.LongToString(n)
  }

  /** Equal ids give equal keys, and distinct ids distinct keys. */
  lemma RecordKeyInjective(a: Option<int>, b: Option<int>)
    ensures RecordKey(a) == RecordKey(b) <==> a == b
  {
    if a.Some? && b.Some? && RecordKey(a) == RecordKey(b) {
      assert Some(a.value) == Decimal.ParseLong(RecordKey(a)) == Some(b.value);
    }
  }

  /** The keys of the producer's unit tests. */
  lemma RecordKeyExamples()
    ensures RecordKey(Some(42)) == "42"
    ensures RecordKey(Some(7)) == "7"
    ensures RecordKey(None) == "null"
  {
    assert Decimal.NatToString(42) == Decimal.NatToString(4) + [Decimal.DigitChar(2)];
  }

  datatype ProducerRecord = ProducerRecord(topic: string, key: string, value: UserEvent)

  /** How the broker eventually answers one hand-off. */
  datatype Delivery = Delivered(partition: nat, offset: nat) | DeliveryFailed(error: string)

  /** The `CompletableFuture<SendResult>` the template returns: which hand-off
      it belongs to, what was handed off, and how it completes. */
  datatype SendFuture = SendFuture(index: nat, record: ProducerRecord, outcome: Delivery) {
    predicate IsCompletedExceptionally() {
      outcome.DeliveryFailed?
    }
  }

  /** `KafkaTemplate<String, UserEvent>`: the log of every record handed to it. */
  class KafkaTemplate {
    var records: seq<ProducerRecord>

    constructor ()
      ensures records == []
    {
      records := [];
    }

    /** `send(topic, key, value)`: one record appended; the returned future
        completes as `delivery` says. */
    method Send(topic: string, key: string, value: UserEvent, delivery: Delivery) returns (f: SendFuture)
      modifies this
      ensures records == old(records) + [ProducerRecord(topic, key, value)]
      ensures f == SendFuture(|old(records)|, ProducerRecord(topic, key, value), delivery)
    {
      f := SendFuture(|records|, ProducerRecord(topic, key, value), delivery);
      records := records + [ProducerRecord(topic, key, value)];
    }
  }

  class UserEventProducer {
    const template: KafkaTemplate
    const topic: string

    /** The topic is the configured one, or "user.account" when none is set. */
    constructor (template: KafkaTemplate, configuredTopic: Option<string>)
      ensures this.template == template
      ensures topic == (if configuredTopic.Some? then configuredTopic.value else "user.account")
    {
      this.template := template;
      this.topic := configuredTopic.GetOr(DefaultTopic);
    }

    /** `send`: exactly one hand-off of (topic, key of the user id, the event
        unchanged); the template's future is returned as it is, failed or
        not, and `send` itself never fails. */
    method Send(event: UserEvent, delivery: Delivery) returns (f: SendFuture)
      modifies template
      ensures template.records == old(template.records) + [ProducerRecord(topic, RecordKey(event.userId), event)]
      ensures f == SendFuture(|old(template.records)|, ProducerRecord(topic, RecordKey(event.userId), event), delivery)
      ensures f.IsCompletedExceptionally() <==> delivery.DeliveryFailed?
    {
      var key := RecordKey(event.userId);
      f := template.Send(topic, key, event, delivery);
    }
  }
}
