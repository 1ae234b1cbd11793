/**
 * The reminders collection route (next-test/src/app/api/reminders/route.ts):
 * `GET` lists the in-memory `reminders` array and `POST` appends one reminder
 * after checking its three required fields. The clock reading `Date.now()`
 * is a parameter.
 */
module Reminders {
  import opened Wrappers
  import opened Http
  import opened JsValues

  /** A stored reminder; its id is the decimal string of the clock reading at creation. */
  datatype Reminder = Reminder(id: string, title: string, description: string, dueDate: string)

  /** The parsed request body; a key may be missing. */
  datatype NewReminder = NewReminder(title: Option<string>, description: Option<string>, dueDate: Option<string>)

  datatype Payload = ReminderArray(reminders: seq<Reminder>) | ReminderObject(reminder: Reminder) | Message(message: string)

  type Store = seq<Reminder>

  const MISSING_FIELDS := "Missing required fields"

  /** `GET`: every stored reminder, in insertion order; nothing changes. */
  function List(reminders: Store): (out: (Store, Response<Payload>))
    ensures out.0 == reminders
    ensures out.1.status == OK && out.1.payload.ReminderArray?
    ensures out.1.payload.reminders == reminders
  {
    (reminders, Response(OK, ReminderArray(reminders)))
  }

  /** `POST`: reject a body missing a field with 400, otherwise append the new reminder and answer 201 with it. */
  function Create(reminders: Store, body: NewReminder, now: nat): (out: (Store, Response<Payload>))
    ensures out.1.status == CREATED <==>
      && body.title.Some? && body.title.value != ""
      && body.description.Some? && body.description.value != ""
      && body.dueDate.Some? && body.dueDate.value != ""
    ensures out.1.status != CREATED ==> out == (reminders, Response(BAD_REQUEST, Message(MISSING_FIELDS)))
    ensures out.1.status == CREATED ==>
      && |out.0| == |reminders| + 1
      && out.0[..|reminders|] == reminders
      && out.0[|reminders|] == Reminder(NumberToString(now), body.title.value, body.description.value, body.dueDate.value)
      && out.1.payload == ReminderObject(out.0[|reminders|])
  {
    if !Truthy(body.title) || !Truthy(body.description) || !Truthy(body.dueDate) then
      (reminders, Response(BAD_REQUEST, Message(MISSING_FIELDS)))
    else
      var r := Reminder(NumberToString(now), body.title.value, body.description.value, body.dueDate.value);
      (reminders + [r], Response(CREATED, ReminderObject(r)))
  }

  /** The id of a created reminder reads back as the clock value it was made at. */
  lemma CreatedIdIsClock(reminders: Store, body: NewReminder, now: nat)
    requires Create(reminders, body, now).1.status == CREATED
    ensures var r := Create(reminders, body, now).0[|reminders|];
      AllDigits(r.id) && DecimalValue(r.id) == now
  {
    DecimalRoundTrip(now);
  }

  /** Two creates on different clock readings get different ids. */
  lemma DistinctClocksDistinctIds(reminders: Store, a: NewReminder, b: NewReminder, t1: nat, t2: nat)
    requires Create(reminders, a, t1).1.status == CREATED
    requires Create(Create(reminders, a, t1).0, b, t2).1.status == CREATED
    ensures var s := Create(Create(reminders, a, t1).0, b, t2).0;
      s[|reminders|].id == s[|reminders| + 1].id <==> t1 == t2
  {
    NumberToStringInjective(t1, t2);
  }

  /** Nothing checks the new id against the stored ones: two creates in the same millisecond share an id. */
  lemma SameClockSharesId(reminders: Store, a: NewReminder, b: NewReminder, now: nat)
    requires Create(reminders, a, now).1.status == CREATED
    requires Create(Create(reminders, a, now).0, b, now).1.status == CREATED
    ensures var s := Create(Create(reminders, a, now).0, b, now).0;
      s[|reminders|].id == s[|reminders| + 1].id
  {
  }

  /** A request to the route, its body decoded and the clock read when it is served. */
  datatype Request = GetReminders | PostReminder(body: NewReminder, now: nat)

  /** The route's dispatch of one request. */
  function Handle(reminders: Store, req: Request): Store {
    match req
    case GetReminders => List(reminders).0
    case PostReminder(body, now) => Create(reminders, body, now).0
  }

  /** The array after serving the requests in order. */
  function Run(reminders: Store, reqs: seq<Request>): Store
    decreases |reqs|
  {
    if |reqs| == 0 then reminders else Run(Handle(reminders, reqs[0]), reqs[1..])
  }

  /** The reminders the accepted POSTs of `reqs` describe, in request order, each named by its clock reading. */
  function Accepted(reqs: seq<Request>): Store
    decreases |reqs|
  {
    if |reqs| == 0 then []
    else
      var rest := Accepted(reqs[1..]);
      match reqs[0]
      case GetReminders => rest
      case PostReminder(b, now) =>
        if Truthy(b.title) && Truthy(b.description) && Truthy(b.dueDate)
        then [Reminder(NumberToString(now), b.title.value, b.description.value, b.dueDate.value)] + rest
        else rest
  }

  /** Serving one request appends exactly what `Accepted` says it accepts. */
  lemma HandleAppendsAccepted(reminders: Store, req: Request)
    ensures Handle(reminders, req) == reminders + Accepted([req])
  {
    assert Accepted([req][1..]) == [];
  }

  lemma AcceptedCons(reqs: seq<Request>)
    requires |reqs| > 0
    ensures Accepted(reqs) == Accepted([reqs[0]]) + Accepted(reqs[1..])
  {
    assert [reqs[0]][1..] == [];
  }

  /** Serving requests appends exactly the accepted reminders, in request order. */
  lemma {:induction false} RunAppendsAccepted(reminders: Store, reqs: seq<Request>)
    ensures Run(reminders, reqs) == reminders + Accepted(reqs)
    decreases |reqs|
  {
    if |reqs| == 0 {
      assert reminders + [] == reminders;
    } else {
      var next := Handle(reminders, reqs[0]);
      var head, tail := Accepted([reqs[0]]), Accepted(reqs[1..]);
      HandleAppendsAccepted(reminders, reqs[0]);
      AcceptedCons(reqs);
      RunAppendsAccepted(next, reqs[1..]);
      assert next + tail == reminders + (head + tail);
    }
  }

  /** After any requests, GET lists the starting reminders followed by exactly the accepted ones, in order. */
  lemma ListAfterRequests(reminders: Store, reqs: seq<Request>)
    ensures List(Run(reminders, reqs)).1.payload.reminders == reminders + Accepted(reqs)
  {
    RunAppendsAccepted(reminders, reqs);
  }
}
