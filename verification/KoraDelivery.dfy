/** api_gateway/main.py:1918-1985, one delivery from receipt to answer, and its place in the step system. */
module KoraDelivery {
  import opened Wrappers
  import opened KoraTables
  import opened KoraWebhooks
  import opened KoraSystem

  datatype Ack = Ignored | AlreadySeen(status: EventStatus) | Accepted | ServerError

  function Inserted(t: Tables, e: Event): Tables {
    t.(events := t.events[e.id := EventRow(e, Received)])
  }

  ghost function Delivered(t: Tables, e: Event, now: Time, uuid: nat): (Ack, Tables) {
    if e.id in t.events then (AlreadySeen(t.events[e.id].status), t)
    else match BusinessEvent(Inserted(t, e), e, now, uuid)
      case Success(t') => (Accepted, SetEventStatus(t', e.id, Processed))
      case Failure(_) => (ServerError, SetEventStatus(Inserted(t, e), e.id, EventFailed))
  }

  /** kora_webhook. A delivery whose signature does not verify is acknowledged and leaves no trace. */
  method KoraWebhook(db: Database, signatureValid: bool, e: Event, now: Time, uuid: nat) returns (ack: Ack)
    modifies db
    ensures !signatureValid ==> ack == Ignored && db.View() == old(db.View())
    ensures signatureValid ==> (ack, db.View()) == Delivered(old(db.View()), e, now, uuid)
  {
    if !signatureValid {
      return Ignored;
    }
    if e.id in db.events {
      return AlreadySeen(db.events[e.id].status);
    }
    db.events := db.events[e.id := EventRow(e, Received)];
    var committed := db.View();
    var error := ProcessBusinessEvent(db, e, now, uuid);
    if error.None? {
      BusinessFrame(committed, e, now, uuid);
      db.events := db.events[e.id := db.events[e.id].(status := Processed)];
      ack := Accepted;
    } else {
      db.Rollback(committed);
      db.events := db.events[e.id := db.events[e.id].(status := EventFailed)];
      ack := ServerError;
    }
  }

  /** The steps an undisturbed delivery takes. */
  function DeliverySteps(d: nat, e: Event, uuid: nat, ack: Ack): seq<Step> {
    if ack.AlreadySeen? then [Deliver(d, e)]
    else if ack.Accepted? then [Deliver(d, e), Apply(d, uuid, true)]
    else [Deliver(d, e), Apply(d, uuid, true), MarkFailed(d)]
  }

  /** The handler and the step system agree: an undisturbed delivery is a run, with the same tables at its end. */
  lemma DeliveryIsRun(s: State, d: nat, e: Event, uuid: nat)
    requires d !in s.deliveries
    ensures var (ack, t) := Delivered(s.db, e, s.clock, uuid);
            IsRun(s, DeliverySteps(d, e, uuid, ack)) && Run(s, DeliverySteps(d, e, uuid, ack)).db == t
  {
    var (ack, t) := Delivered(s.db, e, s.clock, uuid);
    var s1 := DoDeliver(s, d, e);
    RunOne(s, Deliver(d, e));
    if !ack.AlreadySeen? {
      var s2 := DoApply(s1, d, uuid, true);
      RunOne(s1, Apply(d, uuid, true));
      RunFirst(s, Deliver(d, e), [Apply(d, uuid, true)]);
      if ack.ServerError? {
        RunOne(s2, MarkFailed(d));
        RunFirst(s1, Apply(d, uuid, true), [MarkFailed(d)]);
        RunFirst(s, Deliver(d, e), [Apply(d, uuid, true), MarkFailed(d)]);
      }
    }
  }
}
