/** The calendar request workflow: a confidence-gated three-way router, the
    new-event handler (which turns every failure into a failure response) and
    the modify-event handler (which reports success whatever the calendar
    update returned).

    The language model, the date parser, `strftime` and the calendar service
    are not modelled; each of them is a function-typed field of `Services`
    that returns a value or fails. Timestamps are whole minutes. The
    module-level `event_id` that `create_event` writes and `handle_new_event`
    reads is threaded through as an `Option<string>` state value. */
module CalendarModifier {
  import opened Wrappers

  datatype RequestType = NewEvent | ModifyEvent | Other

  /** What the router call extracts from the user's text. */
  datatype CalendarRequestType = CalendarRequestType(
    requestType: RequestType,
    confidenceScore: real,
    description: string)

  datatype NewEventDetails = NewEventDetails(
    name: string,
    date: string,
    durationMinutes: int,
    startTime: string,
    participants: seq<string>)

  datatype Change = Change(field: string, newValue: string)

  datatype ModifyEventDetails = ModifyEventDetails(
    eventIdentifier: string,
    changes: seq<Change>,
    date: string,
    durationMinutes: int,
    startTime: string,
    participantsToAdd: seq<string>,
    participantsToRemove: seq<string>)

  datatype CalendarResponse = CalendarResponse(
    success: bool,
    message: string,
    calendarLink: Option<string>)

  /** The event resource the calendar service returns after an insert or an update. */
  datatype CalendarEvent = CalendarEvent(id: string, htmlLink: Option<string>)

  /** A point in time, in minutes. */
  type Minutes = int

  /** The collaborators the workflow calls; each either returns or raises. */
  datatype Services = Services(
    // structured extraction of new-event details from a cleaned description
    extractNew: string -> Result<NewEventDetails>,
    // structured extraction of modify-event details from a cleaned description
    extractModify: string -> Result<ModifyEventDetails>,
    // the general-purpose date/time string parser
    parse: string -> Result<Minutes>,
    // `strftime('%Y-%m-%d %H:%M')`
    format: Minutes -> string,
    // loading the service-account credentials and building the calendar client
    connect: Result<()>,
    // calendar insert of (start, end, summary)
    insert: (Minutes, Minutes, string) -> Result<CalendarEvent>,
    // calendar update of (event id, summary, start, end)
    update: (string, string, Minutes, Minutes) -> Result<CalendarEvent>)

  /** Requests classified with a lower confidence are declined. */
  const ConfidenceThreshold: real := 0.7

  /** The event id the modify handler passes to the calendar update. */
  const HardCodedEventId: string := "p9hb6pri1f0vh8gs93517qrsfs"

  const FailurePrefix: string := "Failed to create event: "

  const ModifyLinkPrefix: string := "calendar://modify?event="

  /** Python's `str` of the module-level `event_id`. */
  function PyStr(o: Option<string>): (r: string)
    ensures o.Some? ==> r == o.value
  {
    match o
    case None => "None"
    case Some(s) => s
  }

  /** Python's `sep.join(parts)`: the parts in order, `sep` between neighbours. */
  function Join(parts: seq<string>, sep: string): (r: string)
    ensures |parts| == 0 ==> r == ""
    ensures |parts| > 0 ==> IsPrefix(parts[0], r) && IsSuffix(parts[|parts| - 1], r)
  {
    if |parts| == 0 then ""
    else if |parts| == 1 then parts[0]
    else parts[0] + sep + Join(parts[1..], sep)
  }

  /** Every joined part occurs in the joined string. */
  lemma {:induction false} JoinContainsEach(parts: seq<string>, sep: string, i: int)
    requires 0 <= i < |parts|
    ensures IsInfix(parts[i], Join(parts, sep))
  {
    var p := parts[i];
    var joined := Join(parts, sep);
    if i == 0 {
      assert joined[..|p|] == p;
      assert OccursAt(p, joined, 0);
    } else {
      JoinContainsEach(parts[1..], sep, i - 1);
      InfixOfSuffix(p, parts[0] + sep, Join(parts[1..], sep));
    }
  }

  /** The string handed to the date parser: the date and the start time
      separated by one space, or the start time alone when the date is empty. */
  function CombinedDateTime(date: string, startTime: string): (r: string)
    ensures date == "" ==> r == startTime
    ensures date != "" ==> IsPrefix(date + " ", r) && r[|date| + 1..] == startTime
  {
    if date != "" then date + " " + startTime else startTime
  }

  /** The start and end of an event: the parsed start, and an end exactly
      `duration` minutes later; a parser failure is passed on. */
  function EventWindow(env: Services, date: string, startTime: string, duration: int): (r: Result<(Minutes, Minutes)>)
    ensures r.Success? <==> env.parse(CombinedDateTime(date, startTime)).Success?
    ensures r.Success? ==> r.value.0 == env.parse(CombinedDateTime(date, startTime)).value
    ensures r.Success? ==> r.value.1 - r.value.0 == duration
    ensures r.Failure? ==> r.error == env.parse(CombinedDateTime(date, startTime)).error
  {
    match env.parse(CombinedDateTime(date, startTime))
    case Failure(e) => Failure(e)
    case Success(start) => Success((start, start + duration))
  }

  /** `create_event`: sets up the client, inserts the event and, only when
      the insert returns, records its id in the module-level `event_id` (the
      second component). A failing setup or insert raises. */
  function CreateCalendarEvent(env: Services, start: Minutes, end: Minutes, summary: string, eventId: Option<string>)
    : (r: (Result<CalendarEvent>, Option<string>))
    ensures env.connect.Failure? ==> r == (Failure(env.connect.error), eventId)
    ensures env.connect.Success? ==> r.0 == env.insert(start, end, summary)
    ensures r.0.Success? ==> r.1 == Some(r.0.value.id)
    ensures r.0.Failure? ==> r.1 == eventId
  {
    if env.connect.Failure? then (Failure(env.connect.error), eventId)
    else
      match env.insert(start, end, summary)
      case Failure(e) => (Failure(e), eventId)
      case Success(created) => (Success(created), Some(created.id))
  }

  /** `modify_event`: a failing client setup raises, since it sits outside the
      `try`; the update itself fails closed, giving None whenever it raises. */
  function ModifyCalendarEvent(env: Services, eventId: string, summary: string, start: Minutes, end: Minutes)
    : (r: Result<Option<CalendarEvent>>)
    ensures env.connect.Failure? ==> r == Failure(env.connect.error)
    ensures env.connect.Success? ==> r.Success?
    ensures r.Success? ==> (r.value.None? <==> env.update(eventId, summary, start, end).Failure?)
    ensures r.Success? && r.value.Some? ==> r.value.value == env.update(eventId, summary, start, end).value
  {
    if env.connect.Failure? then Failure(env.connect.error)
    else
      match env.update(eventId, summary, start, end)
      case Failure(_) => Success(None)
      case Success(updated) => Success(Some(updated))
  }

  /** The response built from a caught exception's message. */
  function FailedToCreate(e: string): (r: CalendarResponse)
    ensures !r.success && r.calendarLink == None
    ensures IsPrefix(FailurePrefix, r.message) && r.message[|FailurePrefix|..] == e
  {
    CalendarResponse(false, FailurePrefix + e, None)
  }

  /** Steps 1-3 of the new-event handler all return: extraction, parsing,
      client setup and insert. */
  predicate NewEventSucceeds(env: Services, description: string) {
    var x := env.extractNew(description);
    x.Success? &&
    var w := EventWindow(env, x.value.date, x.value.startTime, x.value.durationMinutes);
    w.Success? && env.connect.Success? && env.insert(w.value.0, w.value.1, x.value.name).Success?
  }

  /** `handle_new_event`, returning the response and the new `event_id`. */
  function HandleNewEvent(env: Services, description: string, eventId: Option<string>)
    : (r: (CalendarResponse, Option<string>))
    ensures r.0.success <==> NewEventSucceeds(env, description)
    ensures !r.0.success ==>
      && r.0.calendarLink == None
      && IsPrefix(FailurePrefix, r.0.message)
      && r.1 == eventId
    ensures env.extractNew(description).Failure? ==> r.0 == FailedToCreate(env.extractNew(description).error)
    ensures env.extractNew(description).Success? ==>
      var d := env.extractNew(description).value;
      var start := env.parse(CombinedDateTime(d.date, d.startTime));
      && (start.Failure? ==> r.0 == FailedToCreate(start.error))
      && (start.Success? && env.connect.Failure? ==> r.0 == FailedToCreate(env.connect.error))
      && (start.Success? && env.connect.Success? && env.insert(start.value, start.value + d.durationMinutes, d.name).Failure? ==>
            r.0 == FailedToCreate(env.insert(start.value, start.value + d.durationMinutes, d.name).error))
    ensures r.0.success ==>
      var d := env.extractNew(description).value;
      var start := env.parse(CombinedDateTime(d.date, d.startTime)).value;
      var created := env.insert(start, start + d.durationMinutes, d.name).value;
      && r.1 == Some(created.id)
      && r.0.calendarLink == created.htmlLink
      && IsPrefix("Created new event '" + d.name + "'", r.0.message)
      && IsInfix(created.id, r.0.message)
      && IsInfix(env.format(start), r.0.message)
      && IsSuffix(" with " + Join(d.participants, ", "), r.0.message)
      && (forall p <- d.participants :: IsInfix(p, r.0.message))
  {
    match env.extractNew(description)
    case Failure(e) => (FailedToCreate(e), eventId)
    case Success(d) =>
      match EventWindow(env, d.date, d.startTime, d.durationMinutes)
      case Failure(e) => (FailedToCreate(e), eventId)
      case Success(w) =>
        var (created, newEventId) := CreateCalendarEvent(env, w.0, w.1, d.name, eventId);
        match created
        case Failure(e) => (FailedToCreate(e), newEventId)
        case Success(ev) =>
          assert w.0 == env.parse(CombinedDateTime(d.date, d.startTime)).value;
          assert ev == env.insert(w.0, w.1, d.name).value && newEventId == Some(ev.id);
          var message := CreatedMessage(d.name, PyStr(newEventId), env.format(w.0), d.participants);
          (CalendarResponse(true, message, ev.htmlLink), newEventId)
  }

  /** The success message of the new-event handler names the event, its id,
      its start, and ends with the participants joined by ", ". */
  function CreatedMessage(name: string, id: string, start: string, participants: seq<string>): (m: string)
    ensures IsPrefix("Created new event '" + name + "'", m)
    ensures IsSuffix(" with " + Join(participants, ", "), m)
    ensures IsInfix(id, m)
    ensures IsInfix(start, m)
    ensures forall p <- participants :: IsInfix(p, m)
  {
    var pre := "Created new event '" + name + "'";
    var tail := " with " + Join(participants, ", ");
    MessageParts(pre, id, start, tail);
    ParticipantsListed(pre + " with ID " + id + " starting at " + start, participants);
    pre + " with ID " + id + " starting at " + start + tail
  }

  /** Where the parts of the new-event message sit, one append at a time. */
  lemma MessageParts(pre: string, id: string, start: string, tail: string)
    ensures var m := pre + " with ID " + id + " starting at " + start + tail;
      && IsPrefix(pre, m) && IsSuffix(tail, m) && IsInfix(id, m) && IsInfix(start, m)
  {
    var withId := pre + " with ID ";
    var upToId := withId + id;
    var upToAt := upToId + " starting at ";
    var upToStart := upToAt + start;
    var m := upToStart + tail;
    assert pre[..|pre|] == pre;
    PrefixOfPrefix(pre, pre, " with ID ");
    PrefixOfPrefix(pre, withId, id);
    PrefixOfPrefix(pre, upToId, " starting at ");
    PrefixOfPrefix(pre, upToAt, start);
    PrefixOfPrefix(pre, upToStart, tail);
    assert m[|m| - |tail|..] == tail;
    InfixSelf(id);
    InfixOfSuffix(id, withId, id);
    InfixOfPrefix(id, upToId, " starting at ");
    InfixOfPrefix(id, upToAt, start);
    InfixOfPrefix(id, upToStart, tail);
    InfixSelf(start);
    InfixOfSuffix(start, upToAt, start);
    InfixOfPrefix(start, upToStart, tail);
  }

  /** Every participant occurs in a text that ends with " with " and the joined list. */
  lemma ParticipantsListed(head: string, participants: seq<string>)
    ensures forall p <- participants :: IsInfix(p, head + (" with " + Join(participants, ", ")))
  {
    forall p <- participants
      ensures IsInfix(p, head + (" with " + Join(participants, ", ")))
    {
      var i :| 0 <= i < |participants| && participants[i] == p;
      JoinContainsEach(participants, ", ", i);
      InfixOfSuffix(p, " with ", Join(participants, ", "));
      InfixOfSuffix(p, head, " with " + Join(participants, ", "));
    }
  }

  /** The update call the modify handler makes: event id, new summary, start, end. */
  datatype UpdateRequest = UpdateRequest(eventId: string, summary: string, start: Minutes, end: Minutes)

  /** What the modify handler returns, with the update it sent on the way and
      what `modify_event` gave back for it (which the handler discards). */
  datatype ModifyHandled = ModifyHandled(response: CalendarResponse, sent: UpdateRequest, outcome: Option<CalendarEvent>)

  /** Extraction, parsing and client setup of the modify handler all return. */
  predicate ModifyEventReturns(env: Services, description: string) {
    var x := env.extractModify(description);
    x.Success? && env.parse(CombinedDateTime(x.value.date, x.value.startTime)).Success? && env.connect.Success?
  }

  /** `handle_modify_event`. A failed extraction, parse or client setup is not
      caught and propagates as a `Failure`; the update's own result is ignored. */
  function HandleModifyEvent(env: Services, description: string): (r: Result<ModifyHandled>)
    ensures r.Success? <==> ModifyEventReturns(env, description)
    ensures env.extractModify(description).Failure? ==> r == Failure(env.extractModify(description).error)
    ensures env.extractModify(description).Success? ==>
      var d := env.extractModify(description).value;
      var start := env.parse(CombinedDateTime(d.date, d.startTime));
      && (start.Failure? ==> r == Failure(start.error))
      && (start.Success? && env.connect.Failure? ==> r == Failure(env.connect.error))
    ensures r.Success? ==>
      var d := env.extractModify(description).value;
      var start := env.parse(CombinedDateTime(d.date, d.startTime)).value;
      && r.value.sent == UpdateRequest(HardCodedEventId, d.eventIdentifier, start, start + d.durationMinutes)
      && Success(r.value.outcome)
         == ModifyCalendarEvent(env, r.value.sent.eventId, r.value.sent.summary, r.value.sent.start, r.value.sent.end)
      && r.value.response.success
      && r.value.response.calendarLink == Some(ModifyLinkPrefix + d.eventIdentifier)
      && IsInfix(d.eventIdentifier, r.value.response.message)
  {
    match env.extractModify(description)
    case Failure(e) => Failure(e)
    case Success(d) =>
      match EventWindow(env, d.date, d.startTime, d.durationMinutes)
      case Failure(e) => Failure(e)
      case Success(w) =>
        var request := UpdateRequest(HardCodedEventId, d.eventIdentifier, w.0, w.1);
        match ModifyCalendarEvent(env, request.eventId, request.summary, request.start, request.end)
        case Failure(e) => Failure(e)
        case Success(outcome) =>
          var message := "Modified event '" + d.eventIdentifier + "' with the requested changes";
          InfixMiddle("Modified event '", d.eventIdentifier, "' with the requested changes");
          Success(ModifyHandled(CalendarResponse(true, message, Some(ModifyLinkPrefix + d.eventIdentifier)), request, outcome))
  }

  /** The modify handler's answer does not depend on what the calendar update
      did: success and failure of the update give the same response. */
  lemma ModifyIgnoresUpdateOutcome(env: Services, description: string,
                                   update: (string, string, Minutes, Minutes) -> Result<CalendarEvent>)
    ensures var changed := HandleModifyEvent(env.(update := update), description);
      var original := HandleModifyEvent(env, description);
      && changed.Success? == original.Success?
      && (changed.Failure? ==> changed == original)
      && (changed.Success? ==> changed.value.response == original.value.response && changed.value.sent == original.value.sent)
  {
  }

  /** What the workflow produces: its reply (`Failure` for an exception that
      escapes it, `Success(None)` for a declined request) and the module-level
      `event_id` afterwards. */
  datatype Processed = Processed(reply: Result<Option<CalendarResponse>>, eventId: Option<string>)

  /** `process_calendar_request`, given the router call's outcome. */
  function ProcessCalendarRequest(env: Services, route: Result<CalendarRequestType>, eventId: Option<string>)
    : (r: Processed)
    ensures route.Failure? ==> r == Processed(Failure(route.error), eventId)
    ensures route.Success? && route.value.confidenceScore < ConfidenceThreshold ==>
      r == Processed(Success(None), eventId)
    ensures route.Success? && route.value.confidenceScore >= ConfidenceThreshold ==>
      var req := route.value;
      match req.requestType
      case NewEvent =>
        var h := HandleNewEvent(env, req.description, eventId);
        r == Processed(Success(Some(h.0)), h.1)
      case ModifyEvent =>
        r.eventId == eventId &&
        (match HandleModifyEvent(env, req.description)
         case Failure(e) => r.reply == Failure(e)
         case Success(h) => r.reply == Success(Some(h.response)))
      case Other => r == Processed(Success(None), eventId)
  {
    match route
    case Failure(e) => Processed(Failure(e), eventId)
    case Success(req) =>
      if req.confidenceScore < ConfidenceThreshold then
        Processed(Success(None), eventId)
      else
        match req.requestType
        case NewEvent =>
          var (resp, newEventId) := HandleNewEvent(env, req.description, eventId);
          Processed(Success(Some(resp)), newEventId)
        case ModifyEvent =>
          (match HandleModifyEvent(env, req.description)
           case Failure(e) => Processed(Failure(e), eventId)
           case Success(h) => Processed(Success(Some(h.response)), eventId))
        case Other => Processed(Success(None), eventId)
  }

  /** A response comes back exactly when the router call returned, the
      confidence reaches the threshold, the intent is not `other`, and (for a
      modification) extraction, parsing and client setup returned. A response to a new
      event may still report failure. */
  lemma RespondsIff(env: Services, route: Result<CalendarRequestType>, eventId: Option<string>)
    ensures var r := ProcessCalendarRequest(env, route, eventId);
      (r.reply.Success? && r.reply.value.Some?) <==>
      && route.Success?
      && route.value.confidenceScore >= ConfidenceThreshold
      && route.value.requestType != Other
      && (route.value.requestType == ModifyEvent ==> ModifyEventReturns(env, route.value.description))
  {
  }

  /** Only a modification can raise past the router (besides the router
      call itself): the new-event path never does. */
  lemma NewEventNeverRaises(env: Services, req: CalendarRequestType, eventId: Option<string>)
    requires req.requestType != ModifyEvent
    ensures ProcessCalendarRequest(env, Success(req), eventId).reply.Success?
  {
  }

  /** The `event_id` changes only when a new event was actually inserted,
      and then to that event's id. */
  lemma EventIdChangesOnlyOnInsert(env: Services, route: Result<CalendarRequestType>, eventId: Option<string>)
    ensures var r := ProcessCalendarRequest(env, route, eventId);
      r.eventId != eventId ==>
        && r.reply.Success? && r.reply.value.Some? && r.reply.value.value.success
        && r.eventId.Some? && IsInfix(r.eventId.value, r.reply.value.value.message)
  {
  }
}
