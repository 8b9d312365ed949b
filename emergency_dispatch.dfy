/** `onEmergencyRequestCreated`: for a newly created emergency request, one
    push message per required skill, each published to that skill's topic;
    the invocation always resolves with `null`, whatever the sends do. */
module EmergencyDispatch {
  import opened SkillTopic

  datatype Option<+T> = None | Some(value: T)

  /** The fields of an `emergencyRequests` document that the handler reads.
      Any of them may be missing from the document. */
  datatype EmergencyRequest = EmergencyRequest(
    requiredSkills: Option<seq<string>>,
    title: Option<string>,
    requesterName: Option<string>,
    requesterId: Option<string>)

  datatype Notification = Notification(title: string, body: string)

  /** The message's `data` object; the comment gives the wire key where it
      differs from the field name. A field read from the document keeps
      its absence (`undefined` in the source). */
  datatype MessageData = MessageData(
    kind: string,                  // "type"
    requestId: string,
    requesterId: Option<string>,
    requesterName: Option<string>,
    skill: string,
    channelId: string,             // "channel_id"
    isOwnRequest: string,
    clickAction: string)           // "click_action"

  datatype Message = Message(notification: Notification, data: MessageData, topic: string)

  /** What the push service answers one submission with. */
  datatype SendOutcome = Delivered(messageId: string) | Failed(error: string)

  /** Which of the handler's three exits was taken. */
  datatype Completion =
    | NoSkills               // early return: nothing to send
    | AllDelivered(count: nat) // every send resolved
    | DeliveryError          // some send rejected; the error was caught

  /** How the handler's promise settles. */
  datatype Settlement = ResolvedNull | Rejected(error: string)

  /** One invocation: the messages submitted, in order, the outcome of each
      submission, the exit taken and how the handler settles. */
  datatype Invocation = Invocation(
    submitted: seq<Message>,
    outcomes: seq<SendOutcome>,
    completion: Completion,
    settlement: Settlement)

  const TitlePrefix: string := "Emergency Request: "
  const NeedsHelpWith: string := " needs help with "
  const EmergencyKind: string := "emergency"
  const EmergencyChannel: string := "emergency_channel"
  const NotOwnRequest: string := "false"
  const FlutterClick: string := "FLUTTER_NOTIFICATION_CLICK"

  /** How a template string renders a document field: its text, or
      "undefined" when the field is missing. */
  function Interpolate(field: Option<string>): (text: string)
    ensures field.None? ==> text == "undefined"
    ensures field.Some? ==> text == field.value
  {
    match field
    case Some(text) => text
    case None => "undefined"
  }

  /** The skill list, read as empty when the document has none. */
  function RequiredSkills(request: EmergencyRequest): (skills: seq<string>)
    ensures request.requiredSkills.None? ==> skills == []
    ensures request.requiredSkills.Some? ==> skills == request.requiredSkills.value
  {
    match request.requiredSkills
    case Some(skills) => skills
    case None => []
  }

  /** The message literal built for one skill. */
  function MessageFor(request: EmergencyRequest, requestId: string, skill: string): (m: Message)
    ensures m.topic == TopicFor(skill)
    ensures m.data.skill == skill
    ensures m.notification.title == TitlePrefix + Interpolate(request.title)
    ensures m.notification.body == Interpolate(request.requesterName) + NeedsHelpWith + skill
    ensures m.data.kind == EmergencyKind && m.data.channelId == EmergencyChannel
    ensures m.data.isOwnRequest == NotOwnRequest && m.data.clickAction == FlutterClick
    ensures m.data.requestId == requestId
    ensures m.data.requesterId == request.requesterId && m.data.requesterName == request.requesterName
  {
    Message(
      Notification(TitlePrefix + Interpolate(request.title),
                   Interpolate(request.requesterName) + NeedsHelpWith + skill),
      MessageData(EmergencyKind, requestId, request.requesterId, request.requesterName,
                  skill, EmergencyChannel, NotOwnRequest, FlutterClick),
      TopicFor(skill))
  }

  /** The fan-out: one message per skill, in order, duplicates kept. */
  function Messages(request: EmergencyRequest, requestId: string, skills: seq<string>): (ms: seq<Message>)
    ensures |ms| == |skills|
    ensures forall i :: 0 <= i < |skills| ==> ms[i] == MessageFor(request, requestId, skills[i])
  {
    if skills == [] then []
    else [MessageFor(request, requestId, skills[0])] + Messages(request, requestId, skills[1..])
  }

  predicate AllSucceeded(outcomes: seq<SendOutcome>) {
    forall i :: 0 <= i < |outcomes| ==> outcomes[i].Delivered?
  }

  /** The handler. `send(i)` is the push service's answer to the i-th
      submission; the model gives the submissions no order in time. */
  function OnEmergencyRequestCreated(request: EmergencyRequest, requestId: string,
                                     send: nat -> SendOutcome): (inv: Invocation)
    ensures inv.settlement == ResolvedNull
    ensures inv.submitted == Messages(request, requestId, RequiredSkills(request))
    ensures |inv.outcomes| == |inv.submitted|
    ensures forall i :: 0 <= i < |inv.outcomes| ==> inv.outcomes[i] == send(i)
    ensures inv.completion == NoSkills <==> RequiredSkills(request) == []
    ensures inv.completion == DeliveryError <==>
              exists i :: 0 <= i < |inv.outcomes| && inv.outcomes[i].Failed?
    ensures inv.completion.AllDelivered? ==> inv.completion.count == |RequiredSkills(request)|
  {
    var skills := RequiredSkills(request);
    if |skills| == 0 then
      Invocation([], [], NoSkills, ResolvedNull)
    else
      var messages := Messages(request, requestId, skills);
      var outcomes := seq(|messages|, i requires 0 <= i < |messages| => send(i));
      if AllSucceeded(outcomes) then
        Invocation(messages, outcomes, AllDelivered(|outcomes|), ResolvedNull)
      else
        Invocation(messages, outcomes, DeliveryError, ResolvedNull)
  }

  // ---------------------------------------------------------------------
  // Properties of the fan-out.

  /** The skills can be read back from the messages, in order and with their
      repetitions: the fan-out neither drops, reorders nor merges skills. */
  function SkillsOf(messages: seq<Message>): (skills: seq<string>)
    ensures |skills| == |messages|
    ensures forall i :: 0 <= i < |messages| ==> skills[i] == messages[i].data.skill
  {
    if messages == [] then [] else [messages[0].data.skill] + SkillsOf(messages[1..])
  }

  lemma {:induction false} SkillsRoundTrip(request: EmergencyRequest, requestId: string, skills: seq<string>)
    ensures SkillsOf(Messages(request, requestId, skills)) == skills
  {
    if skills != [] {
      var ms := Messages(request, requestId, skills);
      assert ms[1..] == Messages(request, requestId, skills[1..]);
      SkillsRoundTrip(request, requestId, skills[1..]);
    }
  }

  /** Building messages for a concatenation of skill lists is concatenating
      the messages built for each. */
  lemma {:induction false} MessagesAppend(request: EmergencyRequest, requestId: string,
                                          a: seq<string>, b: seq<string>)
    ensures Messages(request, requestId, a + b) == Messages(request, requestId, a) + Messages(request, requestId, b)
  {
    if a == [] {
      assert a + b == b;
    } else {
      assert (a + b)[1..] == a[1..] + b;
      MessagesAppend(request, requestId, a[1..], b);
    }
  }

  /** A skill listed twice is sent twice, with identical messages. */
  lemma DuplicateSkillsKept(request: EmergencyRequest, requestId: string, send: nat -> SendOutcome,
                            i: nat, j: nat)
    requires i < j < |RequiredSkills(request)|
    requires RequiredSkills(request)[i] == RequiredSkills(request)[j]
    ensures var inv := OnEmergencyRequestCreated(request, requestId, send);
            |inv.submitted| > j && inv.submitted[i] == inv.submitted[j]
  {
  }

  /** A missing or empty skill list sends nothing and resolves with null. */
  lemma NoSkillsNoMessages(request: EmergencyRequest, requestId: string, send: nat -> SendOutcome)
    requires request.requiredSkills.None? || request.requiredSkills == Some([])
    ensures var inv := OnEmergencyRequestCreated(request, requestId, send);
            inv.submitted == [] && inv.completion == NoSkills && inv.settlement == ResolvedNull
  {
  }

  /** Errors are swallowed: whatever the push service answers, the same
      messages are submitted and the handler resolves with null. */
  lemma OutcomesDoNotAffectDispatch(request: EmergencyRequest, requestId: string,
                                    send1: nat -> SendOutcome, send2: nat -> SendOutcome)
    ensures var inv1 := OnEmergencyRequestCreated(request, requestId, send1);
            var inv2 := OnEmergencyRequestCreated(request, requestId, send2);
            inv1.submitted == inv2.submitted &&
            inv1.settlement == inv2.settlement == ResolvedNull
  {
  }

  /** Every submitted message is routed to a well-formed topic: `skill_`
      followed by whitespace-free, lower-case text derived from the
      message's own skill. */
  lemma SubmittedTopicsWellFormed(request: EmergencyRequest, requestId: string,
                                  send: nat -> SendOutcome, i: nat)
    requires i < |OnEmergencyRequestCreated(request, requestId, send).submitted|
    ensures var m := OnEmergencyRequestCreated(request, requestId, send).submitted[i];
            m.topic == TopicPrefix + FormatSkill(m.data.skill) &&
            NoWhitespace(m.topic) && NoUpper(m.topic) &&
            m.data.skill == RequiredSkills(request)[i]
  {
  }
}
