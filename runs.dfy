/**
 * What each SMS 2.0 operation does, as a function of the replies the server
 * gives: the request bodies it sends in order, its result, and what it
 * leaves in _lastError (and, for Connect, in _alias). `server(k)` is the
 * reply to the k-th request put on the wire and `base` the number of
 * requests sent before the operation starts.
 *
 * Most operations are fail-fast chains: each step sends one request and the
 * chain stops at the first step whose reply is unusable or whose result code
 * is not a success. DeleteContact is best-effort: it stops only when a reply
 * gives no document, and tolerates failing result codes.
 */
module Sms20Runs {
  import opened Text
  import opened Xml
  import opened Http
  import opened Sms20Contacts
  import opened Sms20Codec
  import opened Sms20Responses

  /** How a step's reply is judged: the exchange alone, or also readResultNode on a response. */
  datatype Kind = Unchecked | Checked(response: string)

  datatype Step = Step(body: Body, kind: Kind)

  /** A step passes with the reply's document, or fails with what it writes to _lastError (None: nothing). */
  datatype Verdict = Passed(doc: Doc) | Failed(error: Option<string>)

  /**
   * `retDoc == null || !readResultNode(retDoc, response)`: the reply must
   * give a document and, for a checked step, a success code.
   */
  function Judge(reply: Reply, kind: Kind): Verdict {
    match Classify(reply)
    case Decoded(doc) =>
      if kind.Checked? then
        (match ReadResult(doc, kind.response)
         case Pass => Passed(doc)
         case Fail(m) => Failed(Some(m)))
      else Passed(doc)
    case _ => Failed(ExchangeError(Classify(reply)))
  }

  /**
   * A step passes exactly when the reply gives a document and, for a checked
   * step, its result code is a success; a reply without a document fails
   * with the exchange's error, a failing code with readResultNode's.
   */
  lemma JudgeMeaning(reply: Reply, kind: Kind)
    ensures var v := Judge(reply, kind);
      (v.Passed? <==> (Classify(reply).Decoded?
                       && (kind.Checked? ==> ReadResult(Classify(reply).doc, kind.response) == Pass)))
      && (v.Passed? ==> v.doc == Classify(reply).doc)
      && (!Classify(reply).Decoded? ==> v == Failed(ExchangeError(Classify(reply))))
      && (Classify(reply).Decoded? && kind.Checked? && ReadResult(Classify(reply).doc, kind.response).Fail? ==>
            v == Failed(Some(ReadResult(Classify(reply).doc, kind.response).message)))
  {
  }

  predicate Passes(step: Step, reply: Reply) {
    Judge(reply, step.kind).Passed?
  }

  /** The document of a reply that has one, an empty document otherwise. */
  function ReplyDoc(reply: Reply): Doc {
    match Classify(reply)
    case Decoded(doc) => doc
    case _ => Doc(map[])
  }

  function Bodies(plan: seq<Step>): (bodies: seq<Body>)
    ensures |bodies| == |plan|
  {
    seq(|plan|, i requires 0 <= i < |plan| => plan[i].body)
  }

  /** How far a chain got: requests sent, whether every step passed, and _lastError. */
  datatype Progress = Progress(sent: nat, passed: bool, lastError: string)

  /** The progress of a chain counted from an earlier starting point. */
  function Shift(p: Progress, n: nat): (q: Progress)
    ensures q.sent == p.sent + n && q.passed == p.passed && q.lastError == p.lastError
  {
    p.(sent := p.sent + n)
  }

  // ---------------------------------------------------------------------------
  // Fail-fast chains

  /** The verdict on each step of a plan, step k getting the reply to request base + k. */
  function Verdicts(plan: seq<Step>, server: nat -> Reply, base: nat): (vs: seq<Verdict>)
    ensures |vs| == |plan|
  {
    seq(|plan|, k requires 0 <= k < |plan| => Judge(server(base + k), plan[k].kind))
  }

  /** Run verdicts until the first failure, whose error (if any) replaces _lastError. */
  function Chain(vs: seq<Verdict>, err: string): (p: Progress)
    ensures p.sent <= |vs|
    ensures p.passed ==> p.sent == |vs| && p.lastError == err
    ensures !p.passed ==> p.sent > 0
    decreases |vs|
  {
    if |vs| == 0 then Progress(0, true, err)
    else
      match vs[0]
      case Failed(e) => Progress(1, false, e.GetOr(err))
      case Passed(_) => Shift(Chain(vs[1..], err), 1)
  }

  /** A fail-fast chain: stop at the first step that does not pass. */
  function FailFast(plan: seq<Step>, server: nat -> Reply, base: nat, err: string): Progress {
    Chain(Verdicts(plan, server, base), err)
  }

  /** The first i verdicts of a chain passed. */
  predicate PassedUpTo(vs: seq<Verdict>, i: nat)
    requires i <= |vs|
  {
    forall k :: 0 <= k < i ==> vs[k].Passed?
  }

  /**
   * A chain whose first i verdicts passed: it passes when i is its length,
   * and when verdict i fails it stops after i + 1 requests with that error.
   */
  lemma {:induction false} ChainAfter(vs: seq<Verdict>, err: string, i: nat)
    requires i <= |vs| && PassedUpTo(vs, i)
    ensures i == |vs| ==> Chain(vs, err) == Progress(|vs|, true, err)
    ensures i < |vs| && vs[i].Failed? ==> Chain(vs, err) == Progress(i + 1, false, vs[i].error.GetOr(err))
    decreases i
  {
    if i > 0 {
      assert vs[0].Passed?;
      var rest := vs[1..];
      assert PassedUpTo(rest, i - 1) by {
        forall k | 0 <= k < i - 1 ensures rest[k].Passed? {
          assert rest[k] == vs[k + 1];
        }
      }
      ChainAfter(rest, err, i - 1);
      if i < |vs| {
        assert rest[i - 1] == vs[i];
      }
    }
  }

  /** What a step leaves: the document exactly when the verdict passed, and _lastError as the verdict says. */
  predicate Settled(doc: Option<Doc>, lastError: string, err: string, v: Verdict) {
    (doc.Some? <==> v.Passed?)
    && (v.Passed? ==> doc.value == v.doc && lastError == err)
    && (v.Failed? ==> lastError == v.error.GetOr(err))
  }

  /** Step i of a fail-fast plan, settled by its reply: the chain ends here, or moves on. */
  lemma ChainAdvance(plan: seq<Step>, server: nat -> Reply, base: nat, err: string, i: nat,
                     doc: Option<Doc>, lastError: string)
    requires i < |plan| && PassedUpTo(Verdicts(plan, server, base), i)
    requires Settled(doc, lastError, err, Judge(server(base + i), plan[i].kind))
    ensures doc.None? ==> FailFast(plan, server, base, err) == Progress(i + 1, false, lastError)
    ensures doc.Some? ==> lastError == err && PassedUpTo(Verdicts(plan, server, base), i + 1)
    ensures doc.Some? ==> doc.value == ReplyDoc(server(base + i))
    ensures doc.Some? && i + 1 == |plan| ==> FailFast(plan, server, base, err) == Progress(|plan|, true, err)
  {
    var vs := Verdicts(plan, server, base);
    assert vs[i] == Judge(server(base + i), plan[i].kind);
    ChainAfter(vs, err, i);
    if doc.Some? {
      ChainAfter(vs, err, i + 1);
    }
    JudgeMeaning(server(base + i), plan[i].kind);
  }

  /**
   * A chain stops at its first failing verdict: every verdict before the
   * last one it reaches passed, it passes exactly when every verdict does,
   * and when it fails the failing verdict's error is what it leaves.
   */
  lemma {:induction false} ChainStopsAtFirstFailure(vs: seq<Verdict>, err: string)
    ensures var p := Chain(vs, err);
      forall k :: 0 <= k < p.sent - 1 ==> vs[k].Passed?
    ensures var p := Chain(vs, err);
      p.passed <==> forall k :: 0 <= k < |vs| ==> vs[k].Passed?
    ensures var p := Chain(vs, err);
      !p.passed ==> vs[p.sent - 1].Failed? && p.lastError == vs[p.sent - 1].error.GetOr(err)
    decreases |vs|
  {
    if |vs| > 0 && vs[0].Passed? {
      var rest := vs[1..];
      ChainStopsAtFirstFailure(rest, err);
      assert forall k :: 0 < k < |vs| ==> vs[k] == rest[k - 1];
    }
  }

  /** Whether step k of a plan passes, its reply being the one to request base + k. */
  predicate PassesAt(plan: seq<Step>, server: nat -> Reply, base: nat, k: nat)
    requires k < |plan|
  {
    Verdicts(plan, server, base)[k].Passed?
  }

  /**
   * A fail-fast chain sends requests until the first step that does not
   * pass, and passes exactly when every step does; the failing step's error
   * is what it leaves in _lastError.
   */
  lemma FailFastStopsAtFirstFailure(plan: seq<Step>, server: nat -> Reply, base: nat, err: string)
    ensures var p := FailFast(plan, server, base, err);
      forall k: nat :: k < p.sent - 1 ==> PassesAt(plan, server, base, k)
    ensures var p := FailFast(plan, server, base, err);
      p.passed <==> forall k: nat :: k < |plan| ==> PassesAt(plan, server, base, k)
    ensures var p := FailFast(plan, server, base, err);
      !p.passed ==>
        !PassesAt(plan, server, base, p.sent - 1)
        && p.lastError == Verdicts(plan, server, base)[p.sent - 1].error.GetOr(err)
  {
    var vs := Verdicts(plan, server, base);
    ChainStopsAtFirstFailure(vs, err);
    if forall k: nat :: k < |plan| ==> PassesAt(plan, server, base, k) {
      forall k | 0 <= k < |vs| ensures vs[k].Passed? {
        assert PassesAt(plan, server, base, k);
      }
    }
  }

  // ---------------------------------------------------------------------------
  // Best-effort chains

  /** What a tolerant step does: stop (with the exchange's error), or go on, noting readResultNode's. */
  datatype Effect = Stop(error: Option<string>) | Go(note: Option<string>)

  /** readResultNode when a step checks one; an unchecked step leaves _lastError alone. */
  function AfterCheck(doc: Doc, kind: Kind, err: string): string {
    if kind.Checked? then
      match ReadResult(doc, kind.response)
      case Pass => err
      case Fail(m) => m
    else err
  }

  /** `retDoc = doSMS20Request(...); if (retDoc == null) return false; readResultNode(...)`, judged. */
  function Attempted(reply: Reply, kind: Kind): Effect {
    match Classify(reply)
    case Decoded(doc) =>
      Go(if kind.Checked? && ReadResult(doc, kind.response).Fail? then Some(ReadResult(doc, kind.response).message) else None)
    case _ => Stop(ExchangeError(Classify(reply)))
  }

  /** A tolerant step stops exactly at a reply without a document, and leaves _lastError as the session does. */
  lemma AttemptedMeaning(reply: Reply, kind: Kind, err: string)
    ensures var e := Attempted(reply, kind);
      (e.Go? <==> Classify(reply).Decoded?)
      && (e.Stop? ==> e.error.GetOr(err) == ErrorAfter(err, Classify(reply)))
      && (e.Go? ==> e.note.GetOr(err) == AfterCheck(Classify(reply).doc, kind, err))
  {
  }

  /** Whether the reply to request base + k carries a document. */
  predicate DecodedAt(server: nat -> Reply, base: nat, k: nat) {
    Classify(server(base + k)).Decoded?
  }

  function Effects(plan: seq<Step>, server: nat -> Reply, base: nat): (es: seq<Effect>)
    ensures |es| == |plan|
  {
    seq(|plan|, k requires 0 <= k < |plan| => Attempted(server(base + k), plan[k].kind))
  }

  /** Run effects until the first stop, each noting its error in _lastError. */
  function Tolerant(es: seq<Effect>, err: string): (p: Progress)
    ensures p.sent <= |es|
    ensures p.passed ==> p.sent == |es|
    ensures !p.passed ==> p.sent > 0
    decreases |es|
  {
    if |es| == 0 then Progress(0, true, err)
    else
      match es[0]
      case Stop(e) => Progress(1, false, e.GetOr(err))
      case Go(n) => Shift(Tolerant(es[1..], n.GetOr(err)), 1)
  }

  /** A best-effort chain: stop only at a reply without a document; a failing result code is noted and passed over. */
  function BestEffort(plan: seq<Step>, server: nat -> Reply, base: nat, err: string): Progress {
    Tolerant(Effects(plan, server, base), err)
  }

  /** A tolerant chain that has run i effects, leaving e in _lastError, and goes on with the rest. */
  predicate TolerantAt(es: seq<Effect>, err: string, e: string, i: nat)
    requires i <= |es|
  {
    Tolerant(es, err) == Shift(Tolerant(es[i..], e), i)
  }

  /** Every tolerant chain starts at 0, and one that reached the end passed with what it last noted. */
  lemma TolerantAtEnds(es: seq<Effect>, err: string, e: string)
    ensures TolerantAt(es, err, err, 0)
    ensures TolerantAt(es, err, e, |es|) ==> Tolerant(es, err) == Progress(|es|, true, e)
  {
    assert es[0..] == es;
    assert es[|es|..] == [];
  }

  /** Step i of a tolerant chain: a stop ends it after i + 1 requests, a go notes its error and moves on. */
  lemma TolerantStep(es: seq<Effect>, err: string, e: string, i: nat)
    requires i < |es| && TolerantAt(es, err, e, i)
    ensures es[i].Stop? ==> Tolerant(es, err) == Progress(i + 1, false, es[i].error.GetOr(e))
    ensures es[i].Go? ==> TolerantAt(es, err, es[i].note.GetOr(e), i + 1)
  {
    assert es[i..][0] == es[i];
    assert es[i..][1..] == es[i + 1..];
  }

  /** What a tolerant step leaves: no document exactly when it stops, and _lastError as the effect notes. */
  predicate Noted(doc: Option<Doc>, lastError: string, err: string, e: Effect) {
    (doc.None? <==> e.Stop?)
    && (e.Stop? ==> lastError == e.error.GetOr(err))
    && (e.Go? ==> lastError == e.note.GetOr(err))
  }

  /** Step i of a best-effort plan, noted from its reply: the chain ends here, or moves on. */
  lemma TolerantAdvance(plan: seq<Step>, server: nat -> Reply, base: nat, err: string, before: string, i: nat,
                        doc: Option<Doc>, lastError: string)
    requires i < |plan| && TolerantAt(Effects(plan, server, base), err, before, i)
    requires Noted(doc, lastError, before, Attempted(server(base + i), plan[i].kind))
    ensures doc.None? ==> BestEffort(plan, server, base, err) == Progress(i + 1, false, lastError)
    ensures doc.Some? ==> TolerantAt(Effects(plan, server, base), err, lastError, i + 1)
  {
    var es := Effects(plan, server, base);
    assert es[i] == Attempted(server(base + i), plan[i].kind);
    TolerantStep(es, err, before, i);
  }

  /** A tolerant chain goes on exactly as long as its steps do. */
  lemma {:induction false} TolerantStopsAtFirstStop(es: seq<Effect>, err: string)
    ensures var p := Tolerant(es, err);
      forall k :: 0 <= k < p.sent - 1 ==> es[k].Go?
    ensures var p := Tolerant(es, err);
      p.passed <==> forall k :: 0 <= k < |es| ==> es[k].Go?
    ensures var p := Tolerant(es, err);
      !p.passed ==> es[p.sent - 1].Stop?
    decreases |es|
  {
    if |es| > 0 && es[0].Go? {
      var rest := es[1..];
      TolerantStopsAtFirstStop(rest, es[0].note.GetOr(err));
      assert forall k :: 0 < k < |es| ==> es[k] == rest[k - 1];
    }
  }

  /**
   * A best-effort chain passes exactly when every reply gives a document,
   * whatever the result codes say, and stops at the first reply that does not.
   */
  lemma BestEffortStopsAtFirstMissingDoc(plan: seq<Step>, server: nat -> Reply, base: nat, err: string)
    ensures var p := BestEffort(plan, server, base, err);
      forall k: nat :: k < p.sent - 1 ==> DecodedAt(server, base, k)
    ensures var p := BestEffort(plan, server, base, err);
      p.passed <==> forall k: nat :: k < |plan| ==> DecodedAt(server, base, k)
    ensures var p := BestEffort(plan, server, base, err);
      !p.passed ==> !DecodedAt(server, base, p.sent - 1)
  {
    var es := Effects(plan, server, base);
    TolerantStopsAtFirstStop(es, err);
    forall k | 0 <= k < |plan| ensures es[k].Go? <==> DecodedAt(server, base, k) {
      AttemptedMeaning(server(base + k), plan[k].kind, err);
    }
  }

  // ---------------------------------------------------------------------------
  // Login

  datatype LoginRun = LoginRun(sessionId: Option<string>, lastError: string)

  /**
   * Login: a session id only from a 200 reply whose body parses, whose
   * Login-Response carries a success code and a SessionID; the checks in
   * that order, each with its own error text. The status error quotes the
   * status name, not its number.
   */
  function Login(reply: Reply, err: string): (run: LoginRun)
    ensures run.sessionId.Some? <==>
      reply.Some? && reply.value.status == OK && ReadBodyAsXml(reply.value).Some?
      && ReadResult(ReadBodyAsXml(reply.value).value, "Login-Response") == Pass
      && InnerText(ReadBodyAsXml(reply.value).value, SessionIdPath()).Some?
    ensures run.sessionId.Some? ==>
      run.sessionId == InnerText(ReadBodyAsXml(reply.value).value, SessionIdPath()) && run.lastError == err
    ensures reply.None? ==> run.lastError == "Unable to contact web service"
    ensures reply.Some? && reply.value.status != OK ==>
      run.lastError == "Server error: " + reply.value.statusName + " " + reply.value.description
    ensures reply.Some? && reply.value.status == OK && ReadBodyAsXml(reply.value).None? ==>
      run.lastError == "Bad xml"
    ensures reply.Some? && reply.value.status == OK && ReadBodyAsXml(reply.value).Some?
            && ReadResult(ReadBodyAsXml(reply.value).value, "Login-Response").Fail? ==>
      run.lastError == ReadResult(ReadBodyAsXml(reply.value).value, "Login-Response").message
    ensures reply.Some? && reply.value.status == OK && ReadBodyAsXml(reply.value).Some?
            && ReadResult(ReadBodyAsXml(reply.value).value, "Login-Response") == Pass
            && InnerText(ReadBodyAsXml(reply.value).value, SessionIdPath()).None? ==>
      run.lastError == "Unable to read sessionId"
  {
    match reply
    case None => LoginRun(None, "Unable to contact web service")
    case Some(r) =>
      if r.status != OK then LoginRun(None, "Server error: " + r.statusName + " " + r.description)
      else match ReadBodyAsXml(r)
        case None => LoginRun(None, "Bad xml")
        case Some(doc) =>
          match ReadResult(doc, "Login-Response")
          case Fail(m) => LoginRun(None, m)
          case Pass =>
            match InnerText(doc, SessionIdPath())
            case None => LoginRun(None, "Unable to read sessionId")
            case Some(sid) => LoginRun(Some(sid), err)
  }

  // ---------------------------------------------------------------------------
  // Polling

  /** What Polling returns: "" (nothing pending), null (failure), or the first notification. */
  datatype Poll = NoData | PollFailed | Payload(notification: Doc)

  datatype PollRun = PollRun(poll: Poll, lastError: string)

  /**
   * Polling: an empty reply means nothing pending and leaves _lastError; a
   * TransactionContent with children yields its first child; any other
   * document is "Unspected xml data".
   */
  function Polling(reply: Reply, err: string): (run: PollRun)
    ensures run.poll == NoData <==> Classify(reply) == EmptyBody
    ensures run.poll.Payload? <==> (Classify(reply).Decoded?
                                   && SelectSingleNode(Classify(reply).doc, ContentPath).Some?
                                   && |SelectSingleNode(Classify(reply).doc, ContentPath).value.children| > 0)
    ensures run.poll.Payload? ==>
      run.poll.notification == SelectSingleNode(Classify(reply).doc, ContentPath).value.children[0].fragment
    ensures !run.poll.PollFailed? ==> run.lastError == err
    ensures run.poll.PollFailed? && Classify(reply).Decoded? ==> run.lastError == "Unspected xml data"
    ensures run.poll.PollFailed? && !Classify(reply).Decoded? ==> run.lastError == ErrorAfter(err, Classify(reply))
  {
    match Classify(reply)
    case EmptyBody => PollRun(NoData, err)
    case Decoded(doc) =>
      (match SelectSingleNode(doc, ContentPath)
       case Some(content) =>
         if |content.children| > 0 then PollRun(Payload(content.children[0].fragment), err)
         else PollRun(PollFailed, "Unspected xml data")
       case None => PollRun(PollFailed, "Unspected xml data"))
    case _ => PollRun(PollFailed, ErrorAfter(err, Classify(reply)))
  }

  // ---------------------------------------------------------------------------
  // Connect

  /** ClientCapability, Service, UpdatePresence (result checked) and GetList. */
  function ConnectOpening(): seq<Step> {
    [Step(CapabilityBody(), Unchecked), Step(ServiceBody(), Unchecked),
     Step(UpdatePresenceBody(), Checked("Status")), Step(ListBody(), Unchecked)]
  }

  /**
   * After the contacts are read: CreateList when the subscriptions list was
   * not found, SubscribePresence, and a presence update of the alias when
   * the nickname differs from the server's alias.
   */
  function ConnectClosing(log: string, nick: string, listed: bool, alias: string, contacts: seq<Contact>): seq<Step> {
    (if listed then [] else [Step(CreateListBody(log, contacts), Checked("Status"))])
    + [Step(SubscribeBody(log), Checked("Status"))]
    + (if nick != alias then [Step(LiteUpdatePresenceBody(nick), Checked("Status"))] else [])
  }

  /** The closing steps one by one: CreateList first when not listed, then SubscribePresence, then the alias update. */
  lemma ClosingSteps(log: string, nick: string, listed: bool, alias: string, contacts: seq<Contact>)
    ensures var c := ConnectClosing(log, nick, listed, alias, contacts);
      var j := if listed then 0 else 1;
      |c| == j + 1 + (if nick != alias then 1 else 0)
      && (!listed ==> c[0] == Step(CreateListBody(log, contacts), Checked("Status")))
      && c[j] == Step(SubscribeBody(log), Checked("Status"))
      && (nick != alias ==> c[j + 1] == Step(LiteUpdatePresenceBody(nick), Checked("Status")))
  {
  }

  datatype ConnectRun = ConnectRun(contacts: Option<seq<Contact>>, bodies: seq<Body>, alias: Option<string>, lastError: string)

  /** The six requests every Connect that reaches the contact list has sent. */
  function ConnectPrefix(log: string): (bodies: seq<Body>)
    ensures |bodies| == 6
  {
    [CapabilityBody(), ServiceBody(), UpdatePresenceBody(), ListBody(),
     PresenceBody(UserAddress(log)), ListManageBody(log)]
  }

  /** Connect, from the first request to the returned contact list (None: the source's null). */
  function Connect(log: string, nick: string, server: nat -> Reply, base: nat, alias0: Option<string>, err: string): ConnectRun
  {
    var opening := FailFast(ConnectOpening(), server, base, err);
    if !opening.passed then ConnectRun(None, ConnectPrefix(log)[..opening.sent], alias0, opening.lastError)
    else ConnectRoster(log, nick, server, base, alias0, err)
  }

  /** Connect once the opening chain passed: GetPresence gives the alias, ListManage the contacts, then the closing chain. */
  function ConnectRoster(log: string, nick: string, server: nat -> Reply, base: nat, alias0: Option<string>, err: string): ConnectRun
  {
    match Judge(server(base + 4), Checked("GetPresence-Response"))
    case Failed(e) => ConnectRun(None, ConnectPrefix(log)[..5], alias0, e.GetOr(err))
    case Passed(presence) =>
      match InnerText(presence, AliasPath())
      case None => ConnectRun(None, ConnectPrefix(log)[..5], alias0, "Alias not found")
      case Some(alias) => ConnectContacts(log, nick, server, base, alias, err)
  }

  /** Connect once the alias is known: ListManage gives the contacts, then the closing chain. */
  function ConnectContacts(log: string, nick: string, server: nat -> Reply, base: nat, alias: string, err: string): ConnectRun
  {
    match Judge(server(base + 5), Checked("ListManage-Response"))
    case Failed(e) => ConnectRun(None, ConnectPrefix(log), Some(alias), e.GetOr(err))
    case Passed(lists) =>
      match ContactsOf(SelectNodes(lists, NickNamePath()))
      case Err(ex) => ConnectRun(None, ConnectPrefix(log), Some(alias), "MAIN EX: " + ex)
      case Ok(contacts) => ConnectClose(log, nick, server, base, alias, contacts, err)
  }

  /** The closing chain of Connect, once the contacts are read, and what Connect then returns. */
  function ConnectClose(log: string, nick: string, server: nat -> Reply, base: nat, alias: string,
                        contacts: seq<Contact>, err: string): ConnectRun
  {
    var closing := ConnectClosing(log, nick, Listed(log, server, base), alias, contacts);
    var p := FailFast(closing, server, base + 6, err);
    ConnectRun(if p.passed then Some(contacts) else None,
               ConnectPrefix(log) + Bodies(closing)[..p.sent],
               if p.passed then Some(nick) else Some(alias),
               p.lastError)
  }

  /** A closing chain that passed sent every closing request, left _lastError alone and made the nickname the alias. */
  lemma ConnectCloseSucceeds(log: string, nick: string, server: nat -> Reply, base: nat, alias: string,
                             contacts: seq<Contact>, err: string)
    ensures var run := ConnectClose(log, nick, server, base, alias, contacts, err);
      run.contacts.Some? ==>
        run.contacts == Some(contacts)
        && run.bodies == ConnectPrefix(log) + Bodies(ConnectClosing(log, nick, Listed(log, server, base), alias, contacts))
        && run.alias == Some(nick) && run.lastError == err
  {
    var closing := ConnectClosing(log, nick, Listed(log, server, base), alias, contacts);
    assert Bodies(closing)[..|closing|] == Bodies(closing);
  }

  /** Whether the GetList reply (the fourth) names the subscriptions list, as Connect compares. */
  function Listed(log: string, server: nat -> Reply, base: nat): bool {
    SubscriptionsProbe(log) in InnerTexts(ReplyDoc(server(base + 3)), ContactListPath())
  }

  /** The alias the GetPresence reply (the fifth) carries. */
  function ServerAlias(server: nat -> Reply, base: nat): Option<string> {
    InnerText(ReplyDoc(server(base + 4)), AliasPath())
  }

  /**
   * A successful Connect sent the whole sequence: the four opening requests,
   * GetPresence of the user's own address, ListManage of the private list,
   * then CreateList only when the list was not found, SubscribePresence, and
   * the alias update only when the nickname differs from the server's alias.
   * It returns the contacts of the ListManage reply, the alias is now the
   * nickname, and _lastError is untouched.
   */
  lemma ConnectSucceeds(log: string, nick: string, server: nat -> Reply, base: nat, alias0: Option<string>, err: string)
    ensures var run := Connect(log, nick, server, base, alias0, err);
      run.contacts.Some? ==>
        ServerAlias(server, base).Some?
        && ContactsOf(SelectNodes(ReplyDoc(server(base + 5)), NickNamePath())) == Ok(run.contacts.value)
        && run.bodies == ConnectPrefix(log)
                         + Bodies(ConnectClosing(log, nick, Listed(log, server, base),
                                                 ServerAlias(server, base).value, run.contacts.value))
        && run.alias == Some(nick) && run.lastError == err
  {
    var run := Connect(log, nick, server, base, alias0, err);
    if run.contacts.Some? {
      var presence := Judge(server(base + 4), Checked("GetPresence-Response"));
      var lists := Judge(server(base + 5), Checked("ListManage-Response"));
      JudgeMeaning(server(base + 4), Checked("GetPresence-Response"));
      JudgeMeaning(server(base + 5), Checked("ListManage-Response"));
      assert presence.Passed? && lists.Passed?;
      var alias := InnerText(presence.doc, AliasPath());
      var contacts := ContactsOf(SelectNodes(lists.doc, NickNamePath()));
      assert alias.Some? && contacts.Ok?;
      assert run == ConnectClose(log, nick, server, base, alias.value, contacts.value, err);
      ConnectCloseSucceeds(log, nick, server, base, alias.value, contacts.value, err);
    }
  }

  /** The closing requests hold CreateList exactly when the list was not found, and the alias update exactly when the nickname changed. */
  lemma ClosingSends(log: string, nick: string, listed: bool, alias: string, contacts: seq<Contact>)
    ensures var bodies := Bodies(ConnectClosing(log, nick, listed, alias, contacts));
      (CreateListBody(log, contacts) in bodies <==> !listed)
      && (LiteUpdatePresenceBody(nick) in bodies <==> nick != alias)
  {
    var closing := ConnectClosing(log, nick, listed, alias, contacts);
    var bodies := Bodies(closing);
    if listed {
      assert forall b :: b in bodies ==> !b.CreateListRequest?;
    } else {
      assert bodies[0] == CreateListBody(log, contacts);
    }
    if nick != alias {
      assert bodies[|bodies| - 1] == LiteUpdatePresenceBody(nick);
    } else {
      assert forall b :: b in bodies ==> !b.LiteUpdatePresenceRequest?;
    }
  }

  /**
   * CreateList is sent only when no ContactList of the GetList reply is
   * exactly the lower-case subscriptions name; when the reply lists the
   * name the way the client itself creates it (upper-case PEP), the ordinal
   * comparison misses it and a successful Connect creates the list again.
   */
  lemma ConnectCreatesListUnlessFound(log: string, nick: string, server: nat -> Reply, base: nat, alias0: Option<string>, err: string)
    ensures var run := Connect(log, nick, server, base, alias0, err);
      run.contacts.Some? ==>
        (CreateListBody(log, run.contacts.value) in run.bodies <==> !Listed(log, server, base))
    ensures var run := Connect(log, nick, server, base, alias0, err);
      run.contacts.Some? && InnerTexts(ReplyDoc(server(base + 3)), ContactListPath()) == [SubscriptionsList(log)] ==>
        CreateListBody(log, run.contacts.value) in run.bodies
  {
    var run := Connect(log, nick, server, base, alias0, err);
    ConnectSucceeds(log, nick, server, base, alias0, err);
    ListNamesDifferInCaseOnly(log, "subscriptions");
    if run.contacts.Some? {
      ClosingSends(log, nick, Listed(log, server, base), ServerAlias(server, base).value, run.contacts.value);
    }
  }

  /**
   * The alias update is sent by a successful Connect exactly when the
   * nickname differs from the alias the server reported.
   */
  lemma ConnectUpdatesAliasOnlyWhenChanged(log: string, nick: string, server: nat -> Reply, base: nat, alias0: Option<string>, err: string)
    ensures var run := Connect(log, nick, server, base, alias0, err);
      run.contacts.Some? ==>
        (LiteUpdatePresenceBody(nick) in run.bodies <==> Some(nick) != ServerAlias(server, base))
  {
    var run := Connect(log, nick, server, base, alias0, err);
    ConnectSucceeds(log, nick, server, base, alias0, err);
    if run.contacts.Some? {
      ClosingSends(log, nick, Listed(log, server, base), ServerAlias(server, base).value, run.contacts.value);
    }
  }

  /**
   * When the first five requests pass but the GetPresence reply has no
   * alias, Connect stops after five requests with "Alias not found".
   */
  lemma ConnectAliasNotFound(log: string, nick: string, server: nat -> Reply, base: nat, alias0: Option<string>, err: string)
    requires forall k: nat :: k < 4 ==> PassesAt(ConnectOpening(), server, base, k)
    requires Judge(server(base + 4), Checked("GetPresence-Response")).Passed?
    requires ServerAlias(server, base).None?
    ensures var run := Connect(log, nick, server, base, alias0, err);
      run.contacts.None? && |run.bodies| == 5 && run.lastError == "Alias not found" && run.alias == alias0
  {
    FailFastStopsAtFirstFailure(ConnectOpening(), server, base, err);
  }

  // ---------------------------------------------------------------------------
  // AddContact

  datatype Run<T> = Run(result: T, bodies: seq<Body>, lastError: string)

  /** The two list updates that close AddContact. */
  function AddContactClosing(log: string, nick: string, userId: string): seq<Step> {
    [Step(AddToSubscriptionsBody(log, nick, userId), Checked("ListManage-Response")),
     Step(AddToPrivateListBody(log, nick, userId), Checked("ListManage-Response"))]
  }

  /**
   * AddContact: Search, GetPresence of the user found (only the exchange is
   * judged: its result code is not read), then the two list updates.
   */
  function AddContact(log: string, contact: string, server: nat -> Reply, base: nat, err: string): Run<Option<string>> {
    match Judge(server(base), Unchecked)
    case Failed(e) => Run(None, [SearchBody(contact)], e.GetOr(err))
    case Passed(found) =>
      match InnerText(found, SearchUserPath())
      case None => Run(None, [SearchBody(contact)], "User not found")
      case Some(userId) => AddFoundContact(log, contact, userId, server, base, err)
  }

  /** AddContact once the search found the user id: GetPresence gives the nickname, then the two list updates. */
  function AddFoundContact(log: string, contact: string, userId: string, server: nat -> Reply, base: nat, err: string)
    : Run<Option<string>>
  {
    var sent := [SearchBody(contact), PresenceBody(userId)];
    match Judge(server(base + 1), Unchecked)
    case Failed(e) => Run(None, sent, e.GetOr(err))
    case Passed(presence) =>
      match InnerText(presence, AliasPath())
      case None => Run(None, sent, "Alias not found")
      case Some(nick) =>
        var closing := AddContactClosing(log, nick, userId);
        var p := FailFast(closing, server, base + 2, err);
        Run(if p.passed then Some(nick) else None, sent + Bodies(closing)[..p.sent], p.lastError)
  }

  /**
   * AddContact returns a nickname exactly when the search finds a user id,
   * the GetPresence reply has an alias, and both list updates succeed; the
   * nickname is that alias, and both lists receive it with the user id. A
   * failing GetPresence result code does not stop it.
   */
  lemma AddContactSucceedsIff(log: string, contact: string, server: nat -> Reply, base: nat, err: string)
    ensures var run := AddContact(log, contact, server, base, err);
      var userId := InnerText(ReplyDoc(server(base)), SearchUserPath());
      var nick := InnerText(ReplyDoc(server(base + 1)), AliasPath());
      (run.result.Some? <==>
        Classify(server(base)).Decoded? && userId.Some?
        && Classify(server(base + 1)).Decoded? && nick.Some?
        && PassesAt(AddContactClosing(log, nick.value, userId.value), server, base + 2, 0)
        && PassesAt(AddContactClosing(log, nick.value, userId.value), server, base + 2, 1))
      && (run.result.Some? ==>
            run.result == nick && run.lastError == err
            && run.bodies == [SearchBody(contact), PresenceBody(userId.value),
                              AddToSubscriptionsBody(log, nick.value, userId.value),
                              AddToPrivateListBody(log, nick.value, userId.value)])
  {
    var run := AddContact(log, contact, server, base, err);
    var userId := InnerText(ReplyDoc(server(base)), SearchUserPath());
    var nick := InnerText(ReplyDoc(server(base + 1)), AliasPath());
    if Classify(server(base)).Decoded? && userId.Some? && Classify(server(base + 1)).Decoded? && nick.Some? {
      var closing := AddContactClosing(log, nick.value, userId.value);
      FailFastStopsAtFirstFailure(closing, server, base + 2, err);
      var p := FailFast(closing, server, base + 2, err);
      if p.passed {
        assert Bodies(closing)[..p.sent] == Bodies(closing);
      }
    }
  }

  // ---------------------------------------------------------------------------
  // AuthorizeContact, DeleteContact, SendMessage, Disconnect

  /** GetPresence (checked), the Status acknowledgement, and PresenceAuth-User accepting. */
  function AuthorizePlan(userId: string): seq<Step> {
    [Step(PresenceBody(userId), Checked("GetPresence-Response")),
     Step(AckBody(), Checked("Status")),
     Step(AuthRequestBody(userId), Checked("Status"))]
  }

  /** Remove from both lists, unsubscribe, delete the attribute list, cancel the authorisation. */
  function DeletePlan(log: string, contact: string): seq<Step> {
    [Step(RemoveFromSubscriptionsBody(log, contact), Checked("ListManage-Response")),
     Step(RemoveFromPrivateListBody(log, contact), Checked("ListManage-Response")),
     Step(UnsubscribeBody(contact), Checked("Status")),
     Step(DeleteAttributeListBody(contact), Checked("Status")),
     Step(CancelAuthBody(contact), Checked("Status"))]
  }

  function SendMessagePlan(log: string, destination: string, message: string): seq<Step> {
    [Step(MessageBody(log, destination, message), Checked("SendMessage-Response"))]
  }

  function DisconnectPlan(): seq<Step> {
    [Step(LogoutBody(), Checked("Status"))]
  }

  /**
   * AuthorizeContact succeeds exactly when the GetPresence, the
   * acknowledgement and the authorisation all pass, and sends the
   * acknowledgement only after the GetPresence passed.
   */
  lemma AuthorizeContactIsFailFast(userId: string, server: nat -> Reply, base: nat, err: string)
    ensures var p := FailFast(AuthorizePlan(userId), server, base, err);
      (p.passed <==> Passes(AuthorizePlan(userId)[0], server(base))
                     && Passes(AuthorizePlan(userId)[1], server(base + 1))
                     && Passes(AuthorizePlan(userId)[2], server(base + 2)))
      && (p.sent >= 2 ==> Passes(AuthorizePlan(userId)[0], server(base)))
  {
    var plan := AuthorizePlan(userId);
    FailFastStopsAtFirstFailure(plan, server, base, err);
    assert PassesAt(plan, server, base, 0) == Passes(plan[0], server(base));
    assert PassesAt(plan, server, base, 1) == Passes(plan[1], server(base + 1));
    assert PassesAt(plan, server, base, 2) == Passes(plan[2], server(base + 2));
  }

  /**
   * DeleteContact returns true exactly when each of the five replies gives a
   * document, whatever its result code; a reply without one stops it.
   */
  lemma DeleteContactIsBestEffort(log: string, contact: string, server: nat -> Reply, base: nat, err: string)
    ensures var p := BestEffort(DeletePlan(log, contact), server, base, err);
      (p.passed <==> forall k: nat :: k < 5 ==> DecodedAt(server, base, k))
      && (!p.passed ==> !DecodedAt(server, base, p.sent - 1))
  {
    BestEffortStopsAtFirstMissingDoc(DeletePlan(log, contact), server, base, err);
  }
}
