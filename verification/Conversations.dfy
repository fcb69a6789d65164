/** RPC conversations between a requester and a provider (pyon/ion/conversation.py). */
module Conversations {
  import opened Wrappers

  const TRANSMIT: bv8 := 1
  const INVITE: bv8 := 8
  const ACCEPT: bv8 := 16
  const REJECT: bv8 := 24

  /** A message type holds a control type and an in-session type, under two masks. */
  function Control(msgType: bv8): bv8 { msgType & 56 }

  function InSession(msgType: bv8): bv8 { msgType & 7 }

  const Protocol := "rpc"
  const ServerRole := "provider"
  const ClientRole := "requester"

  datatype Header = Header(
    msgType: bv8, senderRole: string, receiverRole: string, senderName: string, protocol: string, convId: string)

  /** One side's part in a conversation: which roles it knows the names of, whom it has invited, and what it owes. */
  datatype Endpoint = Endpoint(
    id: string, role: string, originator: bool, known: map<string, string>, invitations: map<string, (string, bool)>,
    nextControl: bv8)

  /** What sending or receiving does to an endpoint, unless it raises. */
  datatype Sent = Sent(endpoint: Endpoint, header: Header) | SendRaised
  datatype Received = Received(endpoint: Endpoint) | ReceiveRaised

  function HeaderOf(e: Endpoint, toRole: string, name: string, msgType: bv8): Header {
    Header(msgType, e.role, toRole, name, Protocol, e.id)
  }

  function SendInSession(e: Endpoint, toRole: string, name: string): Sent {
    if toRole !in e.known then SendRaised
    else if e.nextControl == ACCEPT then Sent(e.(nextControl := 0), HeaderOf(e, toRole, name, TRANSMIT | ACCEPT))
    else Sent(e, HeaderOf(e, toRole, name, TRANSMIT))
  }

  /** The originator's first message to a role invites it. */
  function Send(e: Endpoint, toRole: string, name: string): Sent {
    if e.originator && toRole !in e.known then
      if toRole !in e.invitations then SendRaised
      else if e.invitations[toRole].1 then SendInSession(e, toRole, name)
      else Sent(e.(invitations := e.invitations[toRole := (e.invitations[toRole].0, true)]),
                HeaderOf(e, toRole, name, INVITE | TRANSMIT))
    else SendInSession(e, toRole, name)
  }

  function Receive(e: Endpoint, h: Header): Received {
    var control := Control(h.msgType);
    if control == ACCEPT || control == INVITE then
      Received(e.(known := e.known[h.senderRole := h.senderName],
                  nextControl := if control == INVITE then ACCEPT else e.nextControl))
    else if control == REJECT then ReceiveRaised
    else Received(e)
  }

  /** Between its invitation and the answer an originator cannot send again. */
  lemma NoSendBeforeAnswer(e: Endpoint, toRole: string, name: string)
    requires e.originator && toRole in e.invitations && toRole !in e.known && !e.invitations[toRole].1
    ensures var sent := Send(e, toRole, name);
      && sent.Sent? && Control(sent.header.msgType) == INVITE && InSession(sent.header.msgType) == TRANSMIT
      && Send(sent.endpoint, toRole, name) == SendRaised
      && forall h: Header | Control(h.msgType) == ACCEPT && h.senderRole == toRole ::
           Receive(sent.endpoint, h).Received? && Send(Receive(sent.endpoint, h).endpoint, toRole, name).Sent?
  {
  }

  /** To a role whose name is not known only an originator can send, once, if it has noted whom to invite. */
  lemma SendDoes(e: Endpoint, toRole: string, name: string)
    ensures var sent := Send(e, toRole, name);
      && (toRole !in e.known ==>
            && (sent.Sent? <==> e.originator && toRole in e.invitations && !e.invitations[toRole].1)
            && (sent.Sent? ==>
                  && sent.header == Header(9, e.role, toRole, name, "rpc", e.id)
                  && sent.endpoint == e.(invitations := e.invitations[toRole := (e.invitations[toRole].0, true)])))
      && (toRole in e.known && e.nextControl == 16 ==>
            sent == Sent(e.(nextControl := 0), Header(17, e.role, toRole, name, "rpc", e.id)))
      && (toRole in e.known && e.nextControl != 16 ==>
            sent == Sent(e, Header(1, e.role, toRole, name, "rpc", e.id)))
  {
    var invite: bv8, accept: bv8 := INVITE | TRANSMIT, TRANSMIT | ACCEPT;
    assert invite == 9 && accept == 17;
  }

  /** An invitation or an accept tells the name of its sender, and an invitation is owed an accept. */
  lemma ReceiveDoes(e: Endpoint, h: Header)
    ensures var received := Receive(e, h); var control := h.msgType & 56;
      && (received.ReceiveRaised? <==> control == 24)
      && (control == 8 ==> received == Received(e.(known := e.known[h.senderRole := h.senderName], nextControl := 16)))
      && (control == 16 ==> received == Received(e.(known := e.known[h.senderRole := h.senderName])))
      && (control != 8 && control != 16 && control != 24 ==> received == Received(e))
  {
  }

  // ------------------------------------------------- the two sides

  type Table = map<string, Endpoint>

  /** The requester starts a conversation and sends the request with the invitation. */
  function Opened(id: string, serverName: string): Endpoint {
    Endpoint(id, ClientRole, true, map[], map[ServerRole := (serverName, false)], 0)
  }

  /** The provider's end of a conversation it is invited to. */
  function Joined(h: Header): Received {
    Receive(Endpoint(h.convId, h.receiverRole, false, map[], map[], 0), h)
  }

  /**
   * A whole conversation: the request invites, the answer accepts, and then each side knows the other and all
   * further messages are plain.
   */
  lemma CallIsAnswered(id: string, client: string, server: string)
    ensures var request := Send(Opened(id, server), "provider", client);
      && request.Sent? && request.header == Header(9, "requester", "provider", client, "rpc", id)
      && var joined := Joined(request.header);
      && joined.Received? && joined.endpoint.id == id && joined.endpoint.known == map["requester" := client]
      && var answer := Send(joined.endpoint, "requester", server);
      && answer.Sent? && answer.header == Header(17, "provider", "requester", server, "rpc", id)
      && var done := Receive(request.endpoint, answer.header);
      && done.Received? && done.endpoint.known == map["provider" := server]
      && Send(done.endpoint, "provider", client)
           == Sent(done.endpoint, Header(1, "requester", "provider", client, "rpc", id))
      && Send(answer.endpoint, "requester", server)
           == Sent(answer.endpoint, Header(1, "provider", "requester", server, "rpc", id))
  {
    var request := Send(Opened(id, server), "provider", client);
    SendDoes(Opened(id, server), "provider", client);
    var invite: bv8, accept: bv8 := 9, 17;
    assert invite & 56 == 8 && accept & 56 == 16;
    var joined := Joined(request.header).endpoint;
    SendDoes(joined, "requester", server);
    var answer := Send(joined, "requester", server);
    var done := Receive(request.endpoint, answer.header).endpoint;
    SendDoes(done, "provider", client);
    SendDoes(answer.endpoint, "requester", server);
  }

  /** Names of the two participants. */
  datatype Names = Names(client: string, server: string)

  /**
   * Both sides' tables, the messages under way, and the past: the conversations requested, those with an
   * id supplied by the caller, those accepted and answered by the provider and completed by the requester,
   * and the answers in the order they were sent.
   */
  datatype System = System(
    requester: Table, provider: Table, toProvider: multiset<Header>, toRequester: multiset<Header>,
    requested: set<string>, supplied: set<string>, accepted: set<string>, completed: set<string>, answers: seq<Header>)

  const Start := System(map[], map[], multiset{}, multiset{}, {}, {}, {}, {}, [])

  datatype Step =
    | Request(id: string, isSupplied: bool)
    | Accept(invite: Header)
    | Answer(id: string)
    | Complete(answer: Header)

  /** Ids are not used twice; messages arrive in any order. */
  predicate Enabled(s: System, step: Step) {
    match step
    case Request(id, _) => id !in s.requested
    case Accept(invite) => invite in s.toProvider
    case Answer(id) => id in s.provider
    case Complete(answer) => answer in s.toRequester
  }

  /** One step; None when it raises. */
  function Next(n: Names, s: System, step: Step): Option<System>
    requires Enabled(s, step)
  {
    match step
    case Request(id, isSupplied) =>
      (match Send(Opened(id, n.server), ServerRole, n.client)
       case SendRaised => None
       case Sent(e, h) => Some(s.(requester := s.requester[id := e], toProvider := s.toProvider + multiset{h},
           requested := s.requested + {id}, supplied := if isSupplied then s.supplied + {id} else s.supplied)))
    case Accept(h) =>
      (match Joined(h)
       case ReceiveRaised => None
       case Received(e) => Some(s.(provider := s.provider[h.convId := e], toProvider := s.toProvider - multiset{h},
           accepted := s.accepted + {h.convId})))
    case Answer(id) =>
      (match Send(s.provider[id], ClientRole, n.server)
       case SendRaised => None
       case Sent(e, h) => Some(s.(provider := s.provider - {id}, toRequester := s.toRequester + multiset{h},
           answers := s.answers + [h])))
    case Complete(h) =>
      if h.convId !in s.requester then
        Some(s.(toRequester := s.toRequester - multiset{h}, completed := s.completed + {h.convId}))
      else (match Receive(s.requester[h.convId], h)
            case ReceiveRaised => None
            case Received(e) => Some(s.(
                requester := if h.convId in s.supplied then s.requester - {h.convId} else s.requester[h.convId := e],
                toRequester := s.toRequester - multiset{h}, completed := s.completed + {h.convId})))
  }

  function InviteOf(n: Names, id: string): Header {
    Header(INVITE | TRANSMIT, ClientRole, ServerRole, n.client, Protocol, id)
  }

  function AnswerOf(n: Names, id: string): Header {
    Header(TRANSMIT | ACCEPT, ServerRole, ClientRole, n.server, Protocol, id)
  }

  function Answered(s: System): set<string> { set h | h in s.answers :: h.convId }

  ghost predicate Tables(n: Names, s: System) {
    && s.requester.Keys == (s.requested - s.completed) + (s.completed - s.supplied)
    && s.provider.Keys == s.accepted - Answered(s)
    && (forall id | id in s.requester :: s.requester[id].id == id)
    && (forall id | id in s.provider :: s.provider[id]
          == Endpoint(id, ServerRole, false, map[ClientRole := n.client], map[], ACCEPT))
  }

  /** A channel holds the invitation, or the answer, of each of some conversations once, and nothing else. */
  ghost predicate Invites(n: Names, channel: multiset<Header>, ids: set<string>) {
    forall h :: channel[h] == if h.convId in ids && h == InviteOf(n, h.convId) then 1 else 0
  }

  ghost predicate Answers(n: Names, channel: multiset<Header>, ids: set<string>) {
    forall h :: channel[h] == if h.convId in ids && h == AnswerOf(n, h.convId) then 1 else 0
  }

  ghost predicate UnderWay(n: Names, s: System) {
    && Invites(n, s.toProvider, s.requested - s.accepted)
    && Answers(n, s.toRequester, Answered(s) - s.completed)
  }

  lemma InviteSent(n: Names, channel: multiset<Header>, ids: set<string>, id: string)
    requires Invites(n, channel, ids) && id !in ids
    ensures Invites(n, channel + multiset{InviteOf(n, id)}, ids + {id})
  {
  }

  lemma InviteArrives(n: Names, channel: multiset<Header>, ids: set<string>, h: Header)
    requires Invites(n, channel, ids) && h in channel
    ensures h == InviteOf(n, h.convId) && h.convId in ids && Invites(n, channel - multiset{h}, ids - {h.convId})
  {
    assert channel[h] > 0;
  }

  lemma AnswerSent(n: Names, channel: multiset<Header>, ids: set<string>, id: string)
    requires Answers(n, channel, ids) && id !in ids
    ensures Answers(n, channel + multiset{AnswerOf(n, id)}, ids + {id})
  {
  }

  lemma AnswerArrives(n: Names, channel: multiset<Header>, ids: set<string>, h: Header)
    requires Answers(n, channel, ids) && h in channel
    ensures h == AnswerOf(n, h.convId) && h.convId in ids && Answers(n, channel - multiset{h}, ids - {h.convId})
  {
    assert channel[h] > 0;
  }

  ghost predicate Past(n: Names, s: System) {
    && s.completed <= Answered(s) <= s.accepted <= s.requested
    && s.supplied <= s.requested
    && (forall i | 0 <= i < |s.answers| :: s.answers[i] == AnswerOf(n, s.answers[i].convId))
    && (forall i, j | 0 <= i < j < |s.answers| :: s.answers[i].convId != s.answers[j].convId)
  }

  ghost predicate Inv(n: Names, s: System) { Tables(n, s) && UnderWay(n, s) && Past(n, s) }

  lemma RequestStep(n: Names, s: System, id: string, isSupplied: bool) returns (e: Endpoint)
    requires id !in s.requested
    ensures e.id == id && Next(n, s, Request(id, isSupplied)) == Some(s.(requester := s.requester[id := e],
      toProvider := s.toProvider + multiset{InviteOf(n, id)}, requested := s.requested + {id},
      supplied := if isSupplied then s.supplied + {id} else s.supplied))
  {
    e := Send(Opened(id, n.server), ServerRole, n.client).endpoint;
  }

  lemma RequestKeeps(n: Names, s: System, id: string, isSupplied: bool)
    requires Inv(n, s) && Enabled(s, Request(id, isSupplied))
    ensures var t := Next(n, s, Request(id, isSupplied)); t.Some? && Inv(n, t.value)
  {
    var e := RequestStep(n, s, id, isSupplied);
    var t := Next(n, s, Request(id, isSupplied)).value;
    InviteSent(n, s.toProvider, s.requested - s.accepted, id);
    assert t.requested - t.accepted == (s.requested - s.accepted) + {id};
    assert Answered(t) == Answered(s);
    assert t.requester.Keys == (t.requested - t.completed) + (t.completed - t.supplied);
  }

  lemma AcceptStep(n: Names, s: System, id: string)
    requires InviteOf(n, id) in s.toProvider
    ensures Next(n, s, Accept(InviteOf(n, id))) == Some(s.(
      provider := s.provider[id := Endpoint(id, ServerRole, false, map[ClientRole := n.client], map[], ACCEPT)],
      toProvider := s.toProvider - multiset{InviteOf(n, id)}, accepted := s.accepted + {id}))
  {
  }

  lemma AcceptKeeps(n: Names, s: System, h: Header)
    requires Inv(n, s) && Enabled(s, Accept(h))
    ensures var t := Next(n, s, Accept(h)); t.Some? && Inv(n, t.value)
  {
    InviteArrives(n, s.toProvider, s.requested - s.accepted, h);
    AcceptStep(n, s, h.convId);
    var t := Next(n, s, Accept(h)).value;
    assert t.requested - t.accepted == (s.requested - s.accepted) - {h.convId};
    assert Answered(t) == Answered(s);
    assert Tables(n, t);
  }

  lemma AnswerStep(n: Names, s: System, id: string)
    requires Inv(n, s) && id in s.provider
    ensures Next(n, s, Answer(id)) == Some(s.(provider := s.provider - {id},
      toRequester := s.toRequester + multiset{AnswerOf(n, id)}, answers := s.answers + [AnswerOf(n, id)]))
    ensures Answered(Next(n, s, Answer(id)).value) == Answered(s) + {id}
  {
    var t := Next(n, s, Answer(id)).value;
    assert t.answers == s.answers + [AnswerOf(n, id)];
    assert forall h | h in t.answers :: h in s.answers || h == AnswerOf(n, id);
    assert AnswerOf(n, id) in t.answers && forall h | h in s.answers :: h in t.answers;
  }

  lemma AnswerKeepsPast(n: Names, s: System, id: string)
    requires Inv(n, s) && id in s.provider
    ensures var t := Next(n, s, Answer(id)); t.Some? && Past(n, t.value)
  {
    AnswerStep(n, s, id);
    forall i | 0 <= i < |s.answers| ensures s.answers[i].convId in Answered(s) {}
  }

  lemma AnswerKeeps(n: Names, s: System, id: string)
    requires Inv(n, s) && Enabled(s, Answer(id))
    ensures var t := Next(n, s, Answer(id)); t.Some? && Inv(n, t.value)
  {
    AnswerStep(n, s, id);
    AnswerKeepsPast(n, s, id);
    var t := Next(n, s, Answer(id)).value;
    AnswerSent(n, s.toRequester, Answered(s) - s.completed, id);
    assert Answered(t) - t.completed == (Answered(s) - s.completed) + {id};
    assert Tables(n, t);
  }

  lemma CompleteStep(n: Names, s: System, h: Header) returns (e: Endpoint)
    requires Tables(n, s) && h in s.toRequester && h.convId in s.requester && h == AnswerOf(n, h.convId)
    ensures e.id == h.convId && Next(n, s, Complete(h)) == Some(s.(
      requester := if h.convId in s.supplied then s.requester - {h.convId} else s.requester[h.convId := e],
      toRequester := s.toRequester - multiset{h}, completed := s.completed + {h.convId}))
  {
    e := Receive(s.requester[h.convId], h).endpoint;
  }

  lemma CompleteKeeps(n: Names, s: System, h: Header)
    requires Inv(n, s) && Enabled(s, Complete(h))
    ensures var t := Next(n, s, Complete(h)); t.Some? && Inv(n, t.value)
  {
    AnswerArrives(n, s.toRequester, Answered(s) - s.completed, h);
    var e := CompleteStep(n, s, h);
    var t := Next(n, s, Complete(h)).value;
    assert Answered(t) == Answered(s) && Answered(t) - t.completed == (Answered(s) - s.completed) - {h.convId};
    CompleteKeepsTables(n, s, h.convId, e, t);
  }

  lemma CompleteKeepsTables(n: Names, s: System, id: string, e: Endpoint, t: System)
    requires Tables(n, s) && Past(n, s) && e.id == id && id in s.requested - s.completed
    requires t == s.(requester := t.requester, toRequester := t.toRequester, completed := s.completed + {id})
    requires t.requester == if id in s.supplied then s.requester - {id} else s.requester[id := e]
    ensures Tables(n, t)
  {
    assert Answered(t) == Answered(s);
    assert t.requester.Keys == (t.requested - t.completed) + (t.completed - t.supplied);
  }

  lemma StepKeeps(n: Names, s: System, step: Step)
    requires Inv(n, s) && Enabled(s, step)
    ensures var t := Next(n, s, step); t.Some? && Inv(n, t.value)
  {
    match step
    case Request(id, isSupplied) => RequestKeeps(n, s, id, isSupplied);
    case Accept(h) => AcceptKeeps(n, s, h);
    case Answer(id) => AnswerKeeps(n, s, id);
    case Complete(h) => CompleteKeeps(n, s, h);
  }

  /** The state after some steps; None if one raises. Steps that are not enabled have no effect. */
  function Run(n: Names, s: System, steps: seq<Step>): Option<System>
    decreases |steps|
  {
    if steps == [] then Some(s)
    else if !Enabled(s, steps[0]) then Run(n, s, steps[1..])
    else match Next(n, s, steps[0])
      case None => None
      case Some(t) => Run(n, t, steps[1..])
  }

  lemma {:induction false} RunKeeps(n: Names, s: System, steps: seq<Step>)
    requires Inv(n, s)
    ensures Run(n, s, steps).Some? && Inv(n, Run(n, s, steps).value)
    decreases |steps|
  {
    if steps != [] {
      if Enabled(s, steps[0]) {
        StepKeeps(n, s, steps[0]);
        RunKeeps(n, Next(n, s, steps[0]).value, steps[1..]);
      } else {
        RunKeeps(n, s, steps[1..]);
      }
    }
  }

  /**
   * In every interleaving of any number of conversations: nothing raises; an answer is sent only for an
   * invitation received, once per conversation, and is exactly an accept with a transmission.
   */
  lemma AnswersAreDue(n: Names, steps: seq<Step>)
    ensures Run(n, Start, steps).Some?
    ensures var s := Run(n, Start, steps).value;
      && (forall i | 0 <= i < |s.answers| :: s.answers[i].convId in s.accepted)
      && (forall i, j | 0 <= i < j < |s.answers| :: s.answers[i].convId != s.answers[j].convId)
      && (forall i | 0 <= i < |s.answers| ::
            Control(s.answers[i].msgType) == ACCEPT && InSession(s.answers[i].msgType) == TRANSMIT)
  {
    assert Inv(n, Start);
    RunKeeps(n, Start, steps);
    var s := Run(n, Start, steps).value;
    forall i | 0 <= i < |s.answers| ensures s.answers[i].convId in Answered(s) {}
  }

  /**
   * Each side's table holds exactly the conversations under way there, and on the requester's those without a
   * supplied id.
   */
  lemma TablesAreInFlight(n: Names, steps: seq<Step>)
    ensures Run(n, Start, steps).Some?
    ensures var s := Run(n, Start, steps).value;
      && s.provider.Keys == s.accepted - Answered(s)
      && s.requester.Keys == (s.requested - s.completed) + (s.completed - s.supplied)
  {
    assert Inv(n, Start);
    RunKeeps(n, Start, steps);
  }

  /** When all conversations are complete, both tables are empty again exactly if every id was supplied. */
  lemma TablesEmptyAgain(n: Names, steps: seq<Step>)
    requires Run(n, Start, steps).Some? && var s := Run(n, Start, steps).value; s.completed == s.requested
    ensures var s := Run(n, Start, steps).value;
      && s.toProvider == s.toRequester == multiset{}
      && (s.requester == s.provider == map[] <==> s.supplied == s.requested)
  {
    assert Inv(n, Start);
    RunKeeps(n, Start, steps);
    var s := Run(n, Start, steps).value;
    assert s.provider.Keys == {};
    assert s.requester.Keys == s.requested - s.supplied;
    if s.requester == map[] { assert s.requester.Keys == {}; assert s.requested - s.supplied == {}; }
    if s.supplied == s.requested { assert s.requester.Keys == {}; }
    assert forall h :: s.toProvider[h] == 0 && s.toRequester[h] == 0;
  }

  lemma RunOn(n: Names, s: System, steps: seq<Step>, t: System)
    requires steps != [] && Enabled(s, steps[0]) && Next(n, s, steps[0]) == Some(t)
    ensures Run(n, s, steps) == Run(n, t, steps[1..])
  {
  }

  lemma RequestArrives(n: Names, s: System, id: string, isSupplied: bool) returns (t: System)
    requires Inv(n, s) && id !in s.requested
    ensures Run(n, s, [Request(id, isSupplied), Accept(InviteOf(n, id))]) == Some(t)
    ensures Inv(n, t) && id in t.provider && id !in t.completed && id in t.requested
    ensures t.requested == s.requested + {id} && t.completed == s.completed
    ensures t.supplied == (if isSupplied then s.supplied + {id} else s.supplied)
    ensures t.toProvider == s.toProvider && t.toRequester == s.toRequester
  {
    var steps := [Request(id, isSupplied), Accept(InviteOf(n, id))];
    var e := RequestStep(n, s, id, isSupplied);
    RequestKeeps(n, s, id, isSupplied);
    var a := Next(n, s, steps[0]).value;
    AcceptStep(n, a, id);
    AcceptKeeps(n, a, InviteOf(n, id));
    t := Next(n, a, steps[1]).value;
    RunOn(n, s, steps, a);
    assert steps[1..] == [steps[1]];
    RunOn(n, a, [steps[1]], t);
  }

  lemma Completes(n: Names, s: System, id: string) returns (t: System)
    requires Inv(n, s) && AnswerOf(n, id) in s.toRequester
    ensures Next(n, s, Complete(AnswerOf(n, id))) == Some(t)
    ensures t == s.(requester := t.requester, toRequester := s.toRequester - multiset{AnswerOf(n, id)},
                    completed := s.completed + {id})
  {
    AnswerArrives(n, s.toRequester, Answered(s) - s.completed, AnswerOf(n, id));
    var e := CompleteStep(n, s, AnswerOf(n, id));
    t := Next(n, s, Complete(AnswerOf(n, id))).value;
  }

  lemma AnswerGoes(n: Names, s: System, id: string) returns (t: System)
    requires Inv(n, s) && id in s.provider
    ensures Next(n, s, Answer(id)) == Some(t) && Inv(n, t) && AnswerOf(n, id) in t.toRequester
    ensures t.requested == s.requested && t.completed == s.completed && t.supplied == s.supplied
    ensures t.toProvider == s.toProvider && t.toRequester == s.toRequester + multiset{AnswerOf(n, id)}
  {
    AnswerStep(n, s, id);
    AnswerKeeps(n, s, id);
    t := Next(n, s, Answer(id)).value;
  }

  lemma AnswerArrivesBack(n: Names, s: System, id: string) returns (t: System)
    requires Inv(n, s) && id in s.provider
    ensures Run(n, s, [Answer(id), Complete(AnswerOf(n, id))]) == Some(t)
    ensures t.requested == s.requested && t.completed == s.completed + {id} && t.supplied == s.supplied
    ensures t.toProvider == s.toProvider && t.toRequester == s.toRequester
  {
    var steps := [Answer(id), Complete(AnswerOf(n, id))];
    var a := AnswerGoes(n, s, id);
    t := Completes(n, a, id);
    RunOn(n, s, steps, a);
    assert steps[1..] == [steps[1]];
    RunOn(n, a, [steps[1]], t);
  }

  lemma {:induction false} RunConcat(n: Names, s: System, a: seq<Step>, b: seq<Step>)
    requires Run(n, s, a).Some?
    ensures Run(n, s, a + b) == Run(n, Run(n, s, a).value, b)
    decreases |a|
  {
    if a == [] {
      assert a + b == b;
    } else {
      assert (a + b)[0] == a[0] && (a + b)[1..] == a[1..] + b;
      RunConcat(n, if Enabled(s, a[0]) then Next(n, s, a[0]).value else s, a[1..], b);
    }
  }

  /** Whatever else is under way, a request accepted, answered and completed in turn is complete. */
  lemma RequestCompletes(n: Names, s: System, id: string, isSupplied: bool)
    requires Inv(n, s) && id !in s.requested
    ensures var steps := [Request(id, isSupplied), Accept(InviteOf(n, id)), Answer(id), Complete(AnswerOf(n, id))];
      var t := Run(n, s, steps);
      && t.Some? && t.value.requested == s.requested + {id} && t.value.completed == s.completed + {id}
      && t.value.supplied == (if isSupplied then s.supplied + {id} else s.supplied)
      && t.value.toProvider == s.toProvider && t.value.toRequester == s.toRequester
  {
    var a := RequestArrives(n, s, id, isSupplied);
    var b := AnswerArrivesBack(n, a, id);
    var first, second := [Request(id, isSupplied), Accept(InviteOf(n, id))], [Answer(id), Complete(AnswerOf(n, id))];
    RunConcat(n, s, first, second);
    assert first + second == [Request(id, isSupplied), Accept(InviteOf(n, id)), Answer(id), Complete(AnswerOf(n, id))];
  }

  /** An answer that nobody waits for is dropped. */
  lemma StrayAnswer(n: Names, s: System, h: Header)
    requires h in s.toRequester && h.convId !in s.requester
    ensures var t := Next(n, s, Complete(h));
      t == Some(s.(toRequester := s.toRequester - multiset{h}, completed := s.completed + {h.convId}))
  {
  }

  // ------------------------------------------------- the objects

  class ConversationEndpoint {
    const id: string
    var role: string
    var originator: bool
    var known: map<string, string>
    var invitations: map<string, (string, bool)>
    var nextControl: bv8

    ghost function View(): Endpoint
      reads this
    {
      Endpoint(id, role, originator, known, invitations, nextControl)
    }

    /** Joins a conversation in a role. */
    constructor (id: string, role: string, originator: bool)
      ensures View() == Endpoint(id, role, originator, map[], map[], 0)
    {
      this.id, this.role, this.originator := id, role, originator;
      known, invitations, nextControl := map[], map[], 0;
    }

    /** Notes whom to invite, unless that is noted already; the invitation goes with the first message. */
    method Invite(toRole: string, toRoleName: string)
      modifies this
      ensures View() == old(View()).(invitations :=
        if toRole in old(invitations) then old(invitations) else old(invitations)[toRole := (toRoleName, false)])
    {
      if toRole !in invitations {
        invitations := invitations[toRole := (toRoleName, false)];
      }
    }

    method SendMessage(toRole: string, name: string) returns (h: Option<Header>)
      modifies this
      ensures match Send(old(View()), toRole, name)
        case SendRaised => h == None && View() == old(View())
        case Sent(e, header) => h == Some(header) && View() == e
    {
      if originator && toRole !in known {
        if toRole !in invitations {
          return None;
        }
        if !invitations[toRole].1 {
          invitations := invitations[toRole := (invitations[toRole].0, true)];
          return Some(Header(INVITE | TRANSMIT, role, toRole, name, Protocol, id));
        }
      }
      h := SendInSessionMsg(toRole, name);
    }

    method SendInSessionMsg(toRole: string, name: string) returns (h: Option<Header>)
      modifies this
      ensures match SendInSession(old(View()), toRole, name)
        case SendRaised => h == None && View() == old(View())
        case Sent(e, header) => h == Some(header) && View() == e
    {
      if toRole !in known {
        return None;
      }
      var msgType := TRANSMIT;
      if nextControl == ACCEPT {
        msgType := msgType | ACCEPT;
        nextControl := 0;
      }
      return Some(Header(msgType, role, toRole, name, Protocol, id));
    }

    method MsgReceived(h: Header) returns (raised: bool)
      modifies this
      ensures match Receive(old(View()), h)
        case ReceiveRaised => raised && View() == old(View())
        case Received(e) => !raised && View() == e
    {
      var control := Control(h.msgType);
      raised := false;
      if control == ACCEPT || control == INVITE {
        known := known[h.senderRole := h.senderName];
        if control == INVITE {
          nextControl := ACCEPT;
        }
      } else if control == REJECT {
        raised := true;
      }
    }
  }

  ghost predicate TookUp(was: Table, h: Header, now: Table, raised: bool) {
    match Joined(h)
    case ReceiveRaised => raised && now == was
    case Received(e) => !raised && now == was[h.convId := e]
  }

  /** One side: its ends of conversations and the invitations it has not taken up. */
  class Participant {
    const name: string
    var endPoints: map<string, ConversationEndpoint>
    var recvQueue: seq<Header>

    ghost predicate Valid()
      reads this`endPoints
    {
      forall i, j | i in endPoints && j in endPoints && i != j :: endPoints[i] != endPoints[j]
    }

    ghost function View(): Table
      reads this`endPoints, endPoints.Values
    {
      map id | id in endPoints :: endPoints[id].View()
    }

    constructor (name: string)
      ensures Valid() && View() == map[] && recvQueue == [] && this.name == name
    {
      this.name := name;
      endPoints, recvQueue := map[], [];
    }

    method Insert(id: string, e: ConversationEndpoint)
      requires Valid() && e !in endPoints.Values
      modifies this`endPoints
      ensures Valid() && endPoints == old(endPoints)[id := e] && View() == old(View())[id := e.View()]
    {
      endPoints := endPoints[id := e];
    }

    method End(id: string)
      requires Valid()
      modifies this`endPoints
      ensures Valid() && endPoints == old(endPoints) - {id} && View() == old(View()) - {id}
    {
      endPoints := endPoints - {id};
    }

    /** An endpoint of this side has changed, and no other. */
    twostate lemma OneChanged(id: string)
      requires old(Valid()) && endPoints == old(endPoints) && id in endPoints
      requires forall j | j in endPoints && j != id :: unchanged(endPoints[j])
      ensures View() == old(View())[id := endPoints[id].View()]
    {
    }

    /** The requester's call: starts the conversation, and sends the request along with the invitation. */
    method Call(id: string, serverName: string) returns (h: Option<Header>)
      requires Valid()
      modifies this
      ensures Valid() && recvQueue == old(recvQueue) && fresh(endPoints.Values - old(endPoints.Values))
      ensures match Send(Opened(id, serverName), ServerRole, name)
        case SendRaised => false
        case Sent(e, header) => h == Some(header) && View() == old(View())[id := e]
    {
      var e := new ConversationEndpoint(id, ClientRole, true);
      e.Invite(ServerRole, serverName);
      h := e.SendMessage(ServerRole, name);
      Insert(id, e);
    }

    /** The requester gets its answer; the conversation ends if its id was supplied, unless it raises. */
    method GotAnswer(h: Header, isSupplied: bool) returns (raised: bool)
      requires Valid()
      modifies this, if h.convId in endPoints then {endPoints[h.convId]} else {}
      ensures Valid() && recvQueue == old(recvQueue)
      ensures h.convId !in old(endPoints) ==> !raised && View() == old(View())
      ensures h.convId in old(endPoints) ==> match Receive(old(endPoints[h.convId].View()), h)
        case ReceiveRaised => raised && View() == old(View())
        case Received(e) =>
          && !raised
          && View() == if isSupplied then old(View()) - {h.convId} else old(View())[h.convId := e]
    {
      if h.convId !in endPoints { return false; }
      raised := endPoints[h.convId].MsgReceived(h);
      OneChanged(h.convId);
      if !raised && isSupplied {
        End(h.convId);
      }
    }

    /**
     * The provider queues an invitation and takes up the first one queued, remembering to accept it with its
     * first message. Without any invitation it waits.
     */
    method MessageReceived(h: Header) returns (waits: bool, raised: bool)
      requires Valid()
      modifies this
      ensures Valid() && fresh(endPoints.Values - old(endPoints.Values))
      ensures var queue := if Control(h.msgType) == INVITE then old(recvQueue) + [h] else old(recvQueue);
        if queue == [] then waits && !raised && recvQueue == [] && View() == old(View())
        else !waits && recvQueue == queue[1..] && TookUp(old(View()), queue[0], View(), raised)
    {
      raised, waits := false, false;
      ReceiveInvitation(h);
      if recvQueue == [] { return true, false; }
      var invitation := GetInvitation();
      raised := AcceptInvitation(invitation);
    }

    /** Only an invitation is queued. */
    method ReceiveInvitation(h: Header)
      modifies this`recvQueue
      ensures recvQueue == if Control(h.msgType) == INVITE then old(recvQueue) + [h] else old(recvQueue)
    {
      if Control(h.msgType) == INVITE {
        recvQueue := recvQueue + [h];
      }
    }

    method GetInvitation() returns (h: Header)
      requires recvQueue != []
      modifies this`recvQueue
      ensures h == old(recvQueue)[0] && recvQueue == old(recvQueue)[1..]
    {
      h := recvQueue[0];
      recvQueue := recvQueue[1..];
    }

    method AcceptInvitation(invitation: Header) returns (raised: bool)
      requires Valid()
      modifies this`endPoints
      ensures Valid() && fresh(endPoints.Values - old(endPoints.Values))
      ensures TookUp(old(View()), invitation, View(), raised)
    {
      var e := new ConversationEndpoint(invitation.convId, invitation.receiverRole, false);
      raised := e.MsgReceived(invitation);
      if !raised {
        Insert(invitation.convId, e);
      }
    }

    /** The provider sends its answer and ends the conversation. */
    method SendAnswer(id: string) returns (h: Option<Header>)
      requires Valid() && id in endPoints
      modifies this, endPoints[id]
      ensures Valid() && recvQueue == old(recvQueue)
      ensures match Send(old(endPoints[id].View()), ClientRole, name)
        case SendRaised => h == None && View() == old(View())
        case Sent(e, header) => h == Some(header) && View() == old(View()) - {id}
    {
      h := endPoints[id].SendMessage(ClientRole, name);
      OneChanged(id);
      if h.Some? {
        End(id);
      }
    }
  }
}
