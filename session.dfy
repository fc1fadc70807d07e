/**
 * The SMS20 session object: the fields the operations update in place
 * (_transactionId, _sessionId, _alias, _lastError), the request that builds
 * and sends one envelope (getCommonHeaderData and doSMS20Request), the check
 * of a result code (readResultNode), and the eight public operations. The
 * network is the function `server`, which gives the reply to the k-th request
 * put on the wire; `sent` is the wire itself, every request in order.
 */
module Sms20 {
  import opened Text
  import opened Xml
  import opened Http
  import opened Sms20Contacts
  import opened Sms20Codec
  import opened Sms20Responses
  import opened Sms20Runs

  /** The envelopes of a run of requests sent by a session with this id, numbered on from tid0. */
  function Wire(sid: Option<string>, tid0: int, bodies: seq<Body>): (reqs: seq<Request>)
    ensures |reqs| == |bodies|
    ensures forall i :: 0 <= i < |bodies| ==> reqs[i] == Envelope(Header(sid, tid0 + i + 1), bodies[i])
  {
    seq(|bodies|, i requires 0 <= i < |bodies| => Envelope(Header(sid, tid0 + i + 1), bodies[i]))
  }

  lemma WireSnoc(sid: Option<string>, tid0: int, bodies: seq<Body>, body: Body)
    ensures Wire(sid, tid0, bodies + [body]) == Wire(sid, tid0, bodies) + [Envelope(Header(sid, tid0 + |bodies| + 1), body)]
  {
  }

  /** The transaction ids of the envelopes among the requests, in order; a login post has none. */
  function TransactionIds(reqs: seq<Request>): seq<int>
    decreases |reqs|
  {
    if |reqs| == 0 then []
    else
      TransactionIds(reqs[..|reqs| - 1])
      + (match reqs[|reqs| - 1]
         case Envelope(header, _) => [header.transactionId]
         case LoginPost(_) => [])
  }

  /** 1, 2, ..., n */
  function UpTo(n: nat): (ids: seq<int>)
    ensures |ids| == n && forall i :: 0 <= i < n ==> ids[i] == i + 1
  {
    seq(n, i => i + 1)
  }

  lemma TransactionIdsSnoc(reqs: seq<Request>, r: Request)
    ensures TransactionIds(reqs + [r]) ==
      TransactionIds(reqs) + (if r.Envelope? then [r.header.transactionId] else [])
  {
    assert (reqs + [r])[..|reqs|] == reqs;
  }

  /** The transaction ids carried by the envelopes among the requests. */
  function EnvelopeIds(reqs: seq<Request>): set<int> {
    set r | r in reqs && r.Envelope? :: r.header.transactionId
  }

  lemma EnvelopeIdsSnoc(reqs: seq<Request>, r: Request)
    ensures EnvelopeIds(reqs + [r]) == EnvelopeIds(reqs) + (if r.Envelope? then {r.header.transactionId} else {})
  {
    forall q | q in reqs + [r] ensures q in reqs || q == r {
    }
  }

  /** Numbering and sending one more envelope keeps the wire numbered 1..n. */
  lemma EnvelopeSnoc(sent: seq<Request>, n: nat, sid: Option<string>, body: Body)
    requires TransactionIds(sent) == UpTo(n)
    ensures TransactionIds(sent + [Envelope(Header(sid, n + 1), body)]) == UpTo(n + 1)
  {
    TransactionIdsSnoc(sent, Envelope(Header(sid, n + 1), body));
    assert UpTo(n) + [n + 1] == UpTo(n + 1);
  }

  /** Envelopes numbered on from a wire numbered 1..tid0 keep it numbered 1..tid0 + |bodies|. */
  lemma {:induction false} WireNumbered(oldSent: seq<Request>, tid0: nat, sid: Option<string>, bodies: seq<Body>)
    requires TransactionIds(oldSent) == UpTo(tid0)
    ensures TransactionIds(oldSent + Wire(sid, tid0, bodies)) == UpTo(tid0 + |bodies|)
    decreases |bodies|
  {
    if |bodies| == 0 {
      assert oldSent + Wire(sid, tid0, bodies) == oldSent;
    } else {
      var front := bodies[..|bodies| - 1];
      var last := bodies[|bodies| - 1];
      assert bodies == front + [last];
      var w := oldSent + Wire(sid, tid0, front);
      var env := Envelope(Header(sid, tid0 + |front| + 1), last);
      WireNumbered(oldSent, tid0, sid, front);
      calc {
        TransactionIds(oldSent + Wire(sid, tid0, bodies));
        { WireSnoc(sid, tid0, front, last); assert oldSent + Wire(sid, tid0, bodies) == w + [env]; }
        TransactionIds(w + [env]);
        { EnvelopeSnoc(w, tid0 + |front|, sid, last); }
        UpTo(tid0 + |bodies|);
      }
    }
  }

  /**
   * Every transaction id a session has used belongs to exactly one envelope:
   * the envelopes on the wire carry 1, 2, ... in the order they were sent,
   * so there are as many distinct ids as envelopes numbered.
   */
  lemma {:induction false} TransactionIdsDistinct(reqs: seq<Request>, n: nat)
    requires TransactionIds(reqs) == UpTo(n)
    ensures forall i, j :: 0 <= i < j < n ==> TransactionIds(reqs)[i] < TransactionIds(reqs)[j]
    ensures n == |EnvelopeIds(reqs)|
    decreases |reqs|
  {
    if |reqs| > 0 {
      var front := reqs[..|reqs| - 1];
      var last := reqs[|reqs| - 1];
      assert reqs == front + [last];
      TransactionIdsSnoc(front, last);
      EnvelopeIdsSnoc(front, last);
      var m := if last.Envelope? then n - 1 else n;
      assert TransactionIds(front) == UpTo(m) by {
        assert TransactionIds(front) == TransactionIds(reqs)[..|TransactionIds(front)|];
      }
      TransactionIdsDistinct(front, m);
      if last.Envelope? {
        assert last.header.transactionId == n by {
          assert TransactionIds(reqs)[n - 1] == last.header.transactionId;
        }
        assert n !in EnvelopeIds(front) by {
          EnvelopeIdsBelow(front, m);
        }
      }
    }
  }

  /** Every envelope among requests numbered 1..n carries an id in 1..n. */
  lemma {:induction false} EnvelopeIdsBelow(reqs: seq<Request>, n: nat)
    requires TransactionIds(reqs) == UpTo(n)
    ensures forall r :: r in reqs && r.Envelope? ==> 1 <= r.header.transactionId <= n
    decreases |reqs|
  {
    if |reqs| > 0 {
      var front := reqs[..|reqs| - 1];
      var last := reqs[|reqs| - 1];
      assert reqs == front + [last];
      TransactionIdsSnoc(front, last);
      var m := if last.Envelope? then n - 1 else n;
      assert TransactionIds(front) == UpTo(m) by {
        assert TransactionIds(front) == TransactionIds(reqs)[..|TransactionIds(front)|];
      }
      EnvelopeIdsBelow(front, m);
      if last.Envelope? {
        assert TransactionIds(reqs)[n - 1] == last.header.transactionId;
      }
      forall r | r in reqs ensures r in front || r == last {
      }
    }
  }

  class Session {
    /** _transactionId: the id of the last envelope built, 0 before the first. */
    var transactionId: int
    /** _sessionId: null until a login succeeds. */
    var sessionId: Option<string>
    /** _alias: the alias the server reported, or the nickname Connect set. */
    var alias: Option<string>
    /** _lastError: the description of the last failure. */
    var lastError: string
    /** Every request put on the wire, in order. */
    var sent: seq<Request>
    /** The reply to the k-th request put on the wire. */
    const server: nat -> Reply

    /** The envelopes on the wire are numbered 1, 2, ..., transactionId, in order. */
    ghost predicate Valid()
      reads this
    {
      transactionId >= 0 && TransactionIds(sent) == UpTo(transactionId)
    }

    /** Since the state (oldSent, tid0), exactly these bodies went out, each in an envelope of its own. */
    ghost predicate SentSince(oldSent: seq<Request>, tid0: int, bodies: seq<Body>)
      reads this
    {
      sent == oldSent + Wire(sessionId, tid0, bodies) && transactionId == tid0 + |bodies|
    }

    /** Appending envelopes through SentSince from a numbered state leaves the numbering intact. */
    lemma SentSinceKeepsValid(oldSent: seq<Request>, tid0: int, bodies: seq<Body>)
      requires tid0 >= 0 && TransactionIds(oldSent) == UpTo(tid0)
      requires SentSince(oldSent, tid0, bodies)
      ensures Valid()
    {
      WireNumbered(oldSent, tid0, sessionId, bodies);
    }

    constructor (server: nat -> Reply)
      ensures Valid()
      ensures this.server == server
      ensures transactionId == 0 && sessionId.None? && alias.None? && lastError == "" && sent == []
    {
      transactionId := 0;
      sessionId := None;
      alias := None;
      lastError := "";
      sent := [];
      this.server := server;
    }

    /** GetLastError */
    function LastError(): string
      reads this
    {
      lastError
    }

    /**
     * getCommonHeaderData and doSMS20Request: number the envelope, send it,
     * and read the reply; `empty` is the responseEmpty flag of a 200 reply
     * without a body.
     */
    method Post(body: Body, ghost oldSent: seq<Request>, ghost tid0: int, ghost bodies: seq<Body>)
      returns (doc: Option<Doc>, empty: bool)
      requires SentSince(oldSent, tid0, bodies)
      modifies this`transactionId, this`sent, this`lastError
      ensures SentSince(oldSent, tid0, bodies + [body])
      ensures var o := Classify(server(|old(sent)|));
        doc == (if o.Decoded? then Some(o.doc) else None)
        && empty == (o == EmptyBody)
        && lastError == ErrorAfter(old(lastError), o)
    {
      WireSnoc(sessionId, tid0, bodies, body);
      transactionId := transactionId + 1;
      var request := Envelope(Header(sessionId, transactionId), body);
      var response := server(|sent|);
      ghost var o := Classify(response);
      sent := sent + [request];
      doc, empty := None, false;
      if response.None? {
        assert o == Unreachable;
        lastError := "Unable to contact web service";
        return;
      }
      var r := response.value;
      if r.status != OK {
        assert o == ServerError(r.status, r.description);
        lastError := "Server error: " + IntToString(r.status) + " " + r.description;
        return;
      }
      if r.contentLength <= 0 {
        assert o == EmptyBody;
        empty := true;
        return;
      }
      doc := ReadBodyAsXml(r);
      if doc.None? {
        assert o == BadXml;
        lastError := "Bad xml";
      } else {
        assert o == Decoded(doc.value);
      }
    }

    /** readResultNode: whether the named response carries a success code; otherwise the error is recorded. */
    method ReadResultNode(doc: Doc, nodeName: string) returns (ok: bool)
      modifies this`lastError
      ensures ok <==> ReadResult(doc, nodeName) == Pass
      ensures lastError == AfterCheck(doc, Checked(nodeName), old(lastError))
    {
      var nodeCode := SelectSingleNode(doc, CodePath(nodeName));
      if nodeCode.Some? {
        var code := nodeCode.value.text;
        if |code| == 3 && code[0] == '2' {
          return true;
        }
        var description := "";
        var nodeDescription := SelectSingleNode(doc, DescriptionPath(nodeName));
        if nodeDescription.Some? {
          description := nodeDescription.value.text;
        }
        lastError := code + " " + description;
        return false;
      }
      lastError := "Unknow response";
      return false;
    }

    /**
     * Login: post the form, and on success keep the session id the server
     * gives; no envelope is built, so the transaction id is unchanged.
     */
    method Login(login: string, pwd: string) returns (sid: Option<string>)
      requires Valid()
      modifies this`sent, this`sessionId, this`lastError
      ensures Valid()
      ensures sent == old(sent) + [LoginPost(LoginForm(login, pwd))]
      ensures var run := Sms20Runs.Login(server(|old(sent)|), old(lastError));
        sid == run.sessionId && lastError == run.lastError
        && sessionId == (if run.sessionId.Some? then run.sessionId else old(sessionId))
    {
      var response := server(|sent|);
      TransactionIdsSnoc(sent, LoginPost(LoginForm(login, pwd)));
      sent := sent + [LoginPost(LoginForm(login, pwd))];
      if response.None? {
        lastError := "Unable to contact web service";
        return None;
      }
      var r := response.value;
      if r.status != OK {
        lastError := "Server error: " + r.statusName + " " + r.description;
        return None;
      }
      var doc := ReadBodyAsXml(r);
      if doc.None? {
        lastError := "Bad xml";
        return None;
      }
      var ok := ReadResultNode(doc.value, "Login-Response");
      if !ok {
        return None;
      }
      var nodeSession := SelectSingleNode(doc.value, SessionIdPath());
      if nodeSession.None? {
        lastError := "Unable to read sessionId";
        return None;
      }
      sessionId := Some(nodeSession.value.text);
      return sessionId;
    }

    /**
     * `retDoc = doSMS20Request(body)` and, for a checked step,
     * `readResultNode(retDoc, response)`: the document when both succeed,
     * None when the operation gives up here.
     */
    method Send(step: Step, ghost oldSent: seq<Request>, ghost tid0: int, ghost bodies: seq<Body>)
      returns (doc: Option<Doc>)
      requires SentSince(oldSent, tid0, bodies)
      modifies this`transactionId, this`sent, this`lastError
      ensures SentSince(oldSent, tid0, bodies + [step.body])
      ensures Settled(doc, lastError, old(lastError), Judge(server(|old(sent)|), step.kind))
    {
      JudgeMeaning(server(|sent|), step.kind);
      var empty;
      doc, empty := Post(step.body, oldSent, tid0, bodies);
      if doc.Some? && step.kind.Checked? {
        var ok := ReadResultNode(doc.value, step.kind.response);
        if !ok {
          doc := None;
        }
      }
    }

    /**
     * One step of a fail-fast chain, as the operations write it: Send, where
     * `plan`, `base` and `err` say where the step sits in its chain and
     * `prefix` what the operation sent before the chain began.
     */
    method Exchange(step: Step, ghost oldSent: seq<Request>, ghost tid0: int, ghost prefix: seq<Body>,
                    ghost plan: seq<Step>, ghost i: nat, ghost base: nat, ghost err: string)
      returns (doc: Option<Doc>)
      requires i < |plan| && plan[i] == step
      requires SentSince(oldSent, tid0, prefix + Bodies(plan)[..i]) && |sent| == base + i && lastError == err
      requires PassedUpTo(Verdicts(plan, server, base), i)
      modifies this`transactionId, this`sent, this`lastError
      ensures SentSince(oldSent, tid0, prefix + Bodies(plan)[..i + 1])
      ensures doc.None? ==> FailFast(plan, server, base, err) == Progress(i + 1, false, lastError)
      ensures doc.Some? ==> lastError == err && PassedUpTo(Verdicts(plan, server, base), i + 1)
      ensures doc.Some? ==> doc.value == ReplyDoc(server(base + i))
      ensures doc.Some? && i + 1 == |plan| ==> FailFast(plan, server, base, err) == Progress(|plan|, true, err)
    {
      assert server(|sent|) == server(base + i);
      assert (prefix + Bodies(plan)[..i]) + [step.body] == prefix + Bodies(plan)[..i + 1];
      doc := Send(step, oldSent, tid0, prefix + Bodies(plan)[..i]);
      ChainAdvance(plan, server, base, err, i, doc, lastError);
    }

    /**
     * `retDoc = doSMS20Request(body)`, giving up (None) when there is no
     * document, otherwise `readResultNode`, whose verdict is only recorded in
     * _lastError.
     */
    method Try(step: Step, ghost oldSent: seq<Request>, ghost tid0: int, ghost bodies: seq<Body>)
      returns (doc: Option<Doc>)
      requires SentSince(oldSent, tid0, bodies) && step.kind.Checked?
      modifies this`transactionId, this`sent, this`lastError
      ensures SentSince(oldSent, tid0, bodies + [step.body])
      ensures Noted(doc, lastError, old(lastError), Attempted(server(|old(sent)|), step.kind))
    {
      AttemptedMeaning(server(|sent|), step.kind, lastError);
      var empty;
      doc, empty := Post(step.body, oldSent, tid0, bodies);
      if doc.Some? {
        var ok := ReadResultNode(doc.value, step.kind.response);
      }
    }

    /** One step of DeleteContact: Try, where `plan`, `base` and `err` say where the step sits in its chain. */
    method Attempt(step: Step, ghost oldSent: seq<Request>, ghost tid0: int,
                   ghost plan: seq<Step>, ghost i: nat, ghost base: nat, ghost err: string)
      returns (doc: Option<Doc>)
      requires i < |plan| && plan[i] == step && step.kind.Checked?
      requires SentSince(oldSent, tid0, Bodies(plan)[..i]) && |sent| == base + i
      requires TolerantAt(Effects(plan, server, base), err, lastError, i)
      modifies this`transactionId, this`sent, this`lastError
      ensures SentSince(oldSent, tid0, Bodies(plan)[..i + 1])
      ensures doc.None? ==> BestEffort(plan, server, base, err) == Progress(i + 1, false, lastError)
      ensures doc.Some? ==> TolerantAt(Effects(plan, server, base), err, lastError, i + 1)
    {
      ghost var before := lastError;
      assert server(|sent|) == server(base + i);
      assert Bodies(plan)[..i] + [step.body] == Bodies(plan)[..i + 1];
      doc := Try(step, oldSent, tid0, Bodies(plan)[..i]);
      TolerantAdvance(plan, server, base, err, before, i, doc, lastError);
    }

    /**
     * Connect: the opening chain, the GetPresence that gives the alias, the
     * ListManage that gives the contacts, then the closing chain.
     */
    method Connect(log: string, nickName: string) returns (contacts: Option<seq<Contact>>)
      modifies this`transactionId, this`sent, this`lastError, this`alias
      ensures var run := Sms20Runs.Connect(log, nickName, server, |old(sent)|, old(alias), old(lastError));
        contacts == run.contacts && alias == run.alias && lastError == run.lastError
        && SentSince(old(sent), old(transactionId), run.bodies)
    {
      ghost var base, s0, t0, err := |sent|, sent, transactionId, lastError;
      var retDoc := ConnectOpen(log);
      if retDoc.None? {
        return None;
      }
      var contactListExists := FindList(InnerTexts(retDoc.value, ContactListPath()), SubscriptionsProbe(log));
      contacts := ConnectRoster(log, nickName, contactListExists, s0, t0, base, err);
    }

    /** The opening of Connect: the four requests before GetPresence, failing fast; the ListManage reply when all passed. */
    method ConnectOpen(log: string) returns (doc: Option<Doc>)
      modifies this`transactionId, this`sent, this`lastError
      ensures var opening := FailFast(ConnectOpening(), server, |old(sent)|, old(lastError));
        doc.Some? == opening.passed && lastError == opening.lastError
        && SentSince(old(sent), old(transactionId), ConnectPrefix(log)[..opening.sent])
      ensures doc.Some? ==>
        |sent| == |old(sent)| + 4 && lastError == old(lastError) && doc.value == ReplyDoc(server(|old(sent)| + 3))
    {
      ghost var plan := ConnectOpening();
      ghost var base, s0, t0, err := |sent|, sent, transactionId, lastError;
      assert forall k :: 0 <= k <= 4 ==> [] + Bodies(plan)[..k] == ConnectPrefix(log)[..k];

      doc := Exchange(Step(CapabilityBody(), Unchecked), s0, t0, [], plan, 0, base, err);
      if doc.None? {
        return None;
      }
      doc := Exchange(Step(ServiceBody(), Unchecked), s0, t0, [], plan, 1, base, err);
      if doc.None? {
        return None;
      }
      doc := Exchange(Step(UpdatePresenceBody(), Checked("Status")), s0, t0, [], plan, 2, base, err);
      if doc.None? {
        return None;
      }
      doc := Exchange(Step(ListBody(), Unchecked), s0, t0, [], plan, 3, base, err);
    }

    /** The middle of Connect: GetPresence gives the alias, ListManage the contacts, then the closing chain. */
    method ConnectRoster(log: string, nickName: string, listed: bool,
                         ghost s0: seq<Request>, ghost t0: int, ghost base: nat, ghost err: string)
      returns (contacts: Option<seq<Contact>>)
      requires SentSince(s0, t0, ConnectPrefix(log)[..4]) && |sent| == base + 4 && lastError == err
      requires listed == Listed(log, server, base)
      modifies this`transactionId, this`sent, this`lastError, this`alias
      ensures var run := Sms20Runs.ConnectRoster(log, nickName, server, base, old(alias), err);
        contacts == run.contacts && alias == run.alias && lastError == run.lastError
        && SentSince(s0, t0, run.bodies)
    {
      assert server(|sent|) == server(base + 4);
      var retDoc := Send(Step(PresenceBody(UserAddress(log)), Checked("GetPresence-Response")), s0, t0, ConnectPrefix(log)[..4]);
      assert ConnectPrefix(log)[..4] + [PresenceBody(UserAddress(log))] == ConnectPrefix(log)[..5];
      if retDoc.None? {
        return None;
      }
      var nodeAlias := SelectSingleNode(retDoc.value, AliasPath());
      if nodeAlias.None? {
        lastError := "Alias not found";
        return None;
      }
      alias := Some(nodeAlias.value.text);
      contacts := ConnectContacts(log, nickName, listed, nodeAlias.value.text, s0, t0, base, err);
    }

    /** The rest of Connect once the alias is known: ListManage gives the contacts, then the closing chain. */
    method ConnectContacts(log: string, nickName: string, listed: bool, serverAlias: string,
                           ghost s0: seq<Request>, ghost t0: int, ghost base: nat, ghost err: string)
      returns (contacts: Option<seq<Contact>>)
      requires SentSince(s0, t0, ConnectPrefix(log)[..5]) && |sent| == base + 5 && lastError == err
      requires listed == Listed(log, server, base) && alias == Some(serverAlias)
      modifies this`transactionId, this`sent, this`lastError, this`alias
      ensures var run := Sms20Runs.ConnectContacts(log, nickName, server, base, serverAlias, err);
        contacts == run.contacts && alias == run.alias && lastError == run.lastError
        && SentSince(s0, t0, run.bodies)
    {
      assert server(|sent|) == server(base + 5);
      var retDoc := Send(Step(ListManageBody(log), Checked("ListManage-Response")), s0, t0, ConnectPrefix(log)[..5]);
      assert ConnectPrefix(log)[..5] + [ListManageBody(log)] == ConnectPrefix(log);
      if retDoc.None? {
        return None;
      }
      var read := CollectContacts(SelectNodes(retDoc.value, NickNamePath()));
      if read.Err? {
        lastError := "MAIN EX: " + read.error;
        return None;
      }
      contacts := ConnectFinish(log, nickName, listed, serverAlias, read.value, s0, t0, base, err);
    }

    /** The closing chain of Connect: CreateList unless the list was found, then SubscribePresence and the alias update. */
    method ConnectFinish(log: string, nickName: string, listed: bool, serverAlias: string, list: seq<Contact>,
                         ghost s0: seq<Request>, ghost t0: int, ghost base: nat, ghost err: string)
      returns (contacts: Option<seq<Contact>>)
      requires SentSince(s0, t0, ConnectPrefix(log)) && |sent| == base + 6 && lastError == err
      requires listed == Listed(log, server, base) && alias == Some(serverAlias)
      modifies this`transactionId, this`sent, this`lastError, this`alias
      ensures var run := ConnectClose(log, nickName, server, base, serverAlias, list, err);
        contacts == run.contacts && alias == run.alias && lastError == run.lastError
        && SentSince(s0, t0, run.bodies)
    {
      ghost var prefix := ConnectPrefix(log);
      ghost var closing := ConnectClosing(log, nickName, listed, serverAlias, list);
      ClosingSteps(log, nickName, listed, serverAlias, list);
      assert prefix + Bodies(closing)[..0] == prefix;
      if !listed {
        var retDoc := Exchange(Step(CreateListBody(log, list), Checked("Status")), s0, t0, prefix, closing, 0, base + |prefix|, err);
        if retDoc.None? {
          return None;
        }
      }
      contacts := Subscribe(Step(SubscribeBody(log), Checked("Status")), Step(LiteUpdatePresenceBody(nickName), Checked("Status")),
                            nickName, serverAlias, list, closing, if listed then 0 else 1, prefix, s0, t0, base, err);
    }

    /** SubscribePresence, then the alias update when the nickname is not the alias: the rest of Connect's closing chain. */
    method Subscribe(subscribe: Step, update: Step, nickName: string, serverAlias: string, list: seq<Contact>,
                     ghost closing: seq<Step>, ghost j: nat, ghost prefix: seq<Body>, ghost s0: seq<Request>, ghost t0: int, ghost base: nat, ghost err: string)
      returns (contacts: Option<seq<Contact>>)
      requires alias == Some(serverAlias) && lastError == err
      requires |closing| == j + 1 + (if nickName != serverAlias then 1 else 0)
      requires closing[j] == subscribe
      requires nickName != serverAlias ==> closing[j + 1] == update
      requires SentSince(s0, t0, prefix + Bodies(closing)[..j]) && |sent| == base + |prefix| + j
      requires PassedUpTo(Verdicts(closing, server, base + |prefix|), j)
      modifies this`transactionId, this`sent, this`lastError, this`alias
      ensures var p := FailFast(closing, server, base + |prefix|, err);
        contacts == (if p.passed then Some(list) else None)
        && alias == (if p.passed then Some(nickName) else Some(serverAlias))
        && lastError == p.lastError
        && SentSince(s0, t0, prefix + Bodies(closing)[..p.sent])
    {
      var retDoc := Exchange(subscribe, s0, t0, prefix, closing, j, base + |prefix|, err);
      if retDoc.None? {
        return None;
      }
      if Some(nickName) != alias {
        retDoc := Exchange(update, s0, t0, prefix, closing, j + 1, base + |prefix|, err);
        if retDoc.None? {
          return None;
        }
        alias := Some(nickName);
      }
      assert Bodies(closing)[..|closing|] == Bodies(closing);
      return Some(list);
    }

    /**
     * AddContact: Search for the contact, GetPresence of the user id found
     * (its result code is not read), then the two list updates; the
     * nickname is the alias the server reported.
     */
    method AddContact(log: string, contact: string) returns (nickName: Option<string>)
      modifies this`transactionId, this`sent, this`lastError
      ensures var run := Sms20Runs.AddContact(log, contact, server, |old(sent)|, old(lastError));
        nickName == run.result && lastError == run.lastError
        && SentSince(old(sent), old(transactionId), run.bodies)
    {
      ghost var base, s0, t0, err := |sent|, sent, transactionId, lastError;
      assert [] + [SearchBody(contact)] == [SearchBody(contact)];
      var retDoc := Send(Step(SearchBody(contact), Unchecked), s0, t0, []);
      if retDoc.None? {
        return None;
      }
      var nodeId := SelectSingleNode(retDoc.value, SearchUserPath());
      if nodeId.None? {
        lastError := "User not found";
        return None;
      }
      nickName := AddFoundContact(log, contact, nodeId.value.text, s0, t0, base, err);
    }

    /** The rest of AddContact once the search found the user id. */
    method AddFoundContact(log: string, contact: string, userId: string,
                           ghost s0: seq<Request>, ghost t0: int, ghost base: nat, ghost err: string)
      returns (nickName: Option<string>)
      requires SentSince(s0, t0, [SearchBody(contact)]) && |sent| == base + 1 && lastError == err
      modifies this`transactionId, this`sent, this`lastError
      ensures var run := Sms20Runs.AddFoundContact(log, contact, userId, server, base, err);
        nickName == run.result && lastError == run.lastError && SentSince(s0, t0, run.bodies)
    {
      ghost var prefix := [SearchBody(contact), PresenceBody(userId)];
      assert server(|sent|) == server(base + 1);
      var retDoc := Send(Step(PresenceBody(userId), Unchecked), s0, t0, [SearchBody(contact)]);
      if retDoc.None? {
        return None;
      }
      var nodeAlias := SelectSingleNode(retDoc.value, AliasPath());
      if nodeAlias.None? {
        lastError := "Alias not found";
        return None;
      }
      var nick := nodeAlias.value.text;
      ghost var plan := AddContactClosing(log, nick, userId);
      assert prefix + Bodies(plan)[..0] == prefix;
      retDoc := Exchange(Step(AddToSubscriptionsBody(log, nick, userId), Checked("ListManage-Response")),
                         s0, t0, prefix, plan, 0, base + 2, err);
      if retDoc.None? {
        return None;
      }
      retDoc := Exchange(Step(AddToPrivateListBody(log, nick, userId), Checked("ListManage-Response")),
                         s0, t0, prefix, plan, 1, base + 2, err);
      if retDoc.None? {
        return None;
      }
      assert Bodies(plan)[..2] == Bodies(plan);
      return Some(nick);
    }

    /** SendMessage: one SendMessage-Request, whose response must carry a success code. */
    method SendMessage(log: string, destination: string, message: string) returns (ok: bool)
      modifies this`transactionId, this`sent, this`lastError
      ensures var plan := SendMessagePlan(log, destination, message);
        var p := FailFast(plan, server, |old(sent)|, old(lastError));
        ok == p.passed && lastError == p.lastError
        && SentSince(old(sent), old(transactionId), Bodies(plan)[..p.sent])
    {
      ghost var plan := SendMessagePlan(log, destination, message);
      assert [] + Bodies(plan)[..0] == Bodies(plan)[..0] && [] + Bodies(plan)[..1] == Bodies(plan)[..1];
      var retDoc := Exchange(Step(MessageBody(log, destination, message), Checked("SendMessage-Response")),
                             sent, transactionId, [], plan, 0, |sent|, lastError);
      return retDoc.Some?;
    }

    /** Disconnect: one Logout-Request, whose Status must carry a success code. */
    method Disconnect() returns (ok: bool)
      modifies this`transactionId, this`sent, this`lastError
      ensures var p := FailFast(DisconnectPlan(), server, |old(sent)|, old(lastError));
        ok == p.passed && lastError == p.lastError
        && SentSince(old(sent), old(transactionId), Bodies(DisconnectPlan())[..p.sent])
    {
      ghost var plan := DisconnectPlan();
      assert [] + Bodies(plan)[..0] == Bodies(plan)[..0] && [] + Bodies(plan)[..1] == Bodies(plan)[..1];
      var retDoc := Exchange(Step(LogoutBody(), Checked("Status")), sent, transactionId, [], plan, 0, |sent|, lastError);
      return retDoc.Some?;
    }

    /** AuthorizeContact: GetPresence, the Status acknowledgement and PresenceAuth-User, each checked, failing fast. */
    method AuthorizeContact(userId: string) returns (ok: bool)
      modifies this`transactionId, this`sent, this`lastError
      ensures var plan := AuthorizePlan(userId);
        var p := FailFast(plan, server, |old(sent)|, old(lastError));
        ok == p.passed && lastError == p.lastError
        && SentSince(old(sent), old(transactionId), Bodies(plan)[..p.sent])
    {
      ghost var plan := AuthorizePlan(userId);
      ghost var base, s0, t0, err := |sent|, sent, transactionId, lastError;
      assert forall k :: 0 <= k <= |plan| ==> [] + Bodies(plan)[..k] == Bodies(plan)[..k];

      var retDoc := Exchange(Step(PresenceBody(userId), Checked("GetPresence-Response")), s0, t0, [], plan, 0, base, err);
      if retDoc.None? {
        return false;
      }
      retDoc := Exchange(Step(AckBody(), Checked("Status")), s0, t0, [], plan, 1, base, err);
      if retDoc.None? {
        return false;
      }
      retDoc := Exchange(Step(AuthRequestBody(userId), Checked("Status")), s0, t0, [], plan, 2, base, err);
      if retDoc.None? {
        return false;
      }
      return true;
    }

    /**
     * DeleteContact: the five removal requests; a reply without a document
     * stops it, a failing result code is recorded and passed over.
     */
    method DeleteContact(log: string, contact: string) returns (ok: bool)
      modifies this`transactionId, this`sent, this`lastError
      ensures var plan := DeletePlan(log, contact);
        var p := BestEffort(plan, server, |old(sent)|, old(lastError));
        ok == p.passed && lastError == p.lastError
        && SentSince(old(sent), old(transactionId), Bodies(plan)[..p.sent])
    {
      ghost var plan := DeletePlan(log, contact);
      ghost var base, s0, t0, err := |sent|, sent, transactionId, lastError;
      TolerantAtEnds(Effects(plan, server, base), err, err);
      assert |plan| == 5 && Bodies(plan)[..5] == Bodies(plan);

      var retDoc := Attempt(Step(RemoveFromSubscriptionsBody(log, contact), Checked("ListManage-Response")),
                            s0, t0, plan, 0, base, err);
      if retDoc.None? {
        return false;
      }
      retDoc := Attempt(Step(RemoveFromPrivateListBody(log, contact), Checked("ListManage-Response")),
                        s0, t0, plan, 1, base, err);
      if retDoc.None? {
        return false;
      }
      retDoc := Attempt(Step(UnsubscribeBody(contact), Checked("Status")), s0, t0, plan, 2, base, err);
      if retDoc.None? {
        return false;
      }
      retDoc := Attempt(Step(DeleteAttributeListBody(contact), Checked("Status")), s0, t0, plan, 3, base, err);
      if retDoc.None? {
        return false;
      }
      retDoc := Attempt(Step(CancelAuthBody(contact), Checked("Status")), s0, t0, plan, 4, base, err);
      if retDoc.None? {
        return false;
      }
      TolerantAtEnds(Effects(plan, server, base), err, lastError);
      return true;
    }

    /**
     * Polling: a Polling-Request; nothing pending when the reply is empty,
     * otherwise the first notification of the TransactionContent.
     */
    method Polling() returns (poll: Poll)
      modifies this`transactionId, this`sent, this`lastError
      ensures var run := Sms20Runs.Polling(server(|old(sent)|), old(lastError));
        poll == run.poll && lastError == run.lastError
        && SentSince(old(sent), old(transactionId), [PollBody()])
    {
      var retDoc, emptyResponse := Post(PollBody(), sent, transactionId, []);
      if !emptyResponse {
        if retDoc.None? {
          return PollFailed;
        }
        var nodeResult := SelectSingleNode(retDoc.value, ContentPath);
        if nodeResult.Some? && |nodeResult.value.children| > 0 {
          return Payload(nodeResult.value.children[0].fragment);
        } else {
          lastError := "Unspected xml data";
          return PollFailed;
        }
      } else {
        return NoData;
      }
    }
  }
}
