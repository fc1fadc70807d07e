/**
 * How the SMS 2.0 session reads a reply: the decision doSMS20Request makes
 * about the HTTP response, the readResultNode check of a transaction's
 * result code, and the lookups Connect and AddContact make in a decoded
 * response (the contact lists, the alias, the NickName entries).
 */
module Sms20Responses {
  import opened Text
  import opened Xml
  import opened Http
  import opened Sms20Contacts

  /** What doSMS20Request makes of a reply. */
  datatype Outcome =
    | Unreachable                                   // no response at all
    | ServerError(code: int, description: string)   // a status other than 200
    | EmptyBody                                     // 200 with a Content-Length of 0 or -1
    | BadXml                                        // a body that does not parse
    | Decoded(doc: Doc)

  /** doSMS20Request: the checks in order, response, status, length, parse. */
  function Classify(reply: Reply): Outcome {
    match reply
    case None => Unreachable
    case Some(r) =>
      if r.status != OK then ServerError(r.status, r.description)
      else if r.contentLength <= 0 then EmptyBody
      else match ReadBodyAsXml(r)
        case None => BadXml
        case Some(doc) => Decoded(doc)
  }

  /** Each outcome of doSMS20Request, exactly when the reply leads to it. */
  lemma ClassifyMeaning(reply: Reply)
    ensures var o := Classify(reply);
      (o == Unreachable <==> reply.None?)
      && (o.ServerError? <==> reply.Some? && reply.value.status != OK)
      && (o.ServerError? ==> o.code == reply.value.status && o.description == reply.value.description)
      && (o == EmptyBody <==> reply.Some? && reply.value.status == OK && reply.value.contentLength <= 0)
      && (o.Decoded? <==> reply.Some? && reply.value.status == OK && reply.value.contentLength > 0
                          && ReadBodyAsXml(reply.value).Some?)
      && (o.Decoded? ==> ReadBodyAsXml(reply.value) == Some(o.doc))
  {
  }

  /** The message doSMS20Request leaves in _lastError; an empty body leaves none. */
  function ExchangeError(o: Outcome): Option<string> {
    match o
    case Unreachable => Some("Unable to contact web service")
    case ServerError(code, description) => Some("Server error: " + IntToString(code) + " " + description)
    case BadXml => Some("Bad xml")
    case EmptyBody => None
    case Decoded(_) => None
  }

  /** _lastError after an exchange. */
  function ErrorAfter(err: string, o: Outcome): string {
    ExchangeError(o).GetOr(err)
  }

  /** Exactly the replies that give no document write an error, except an empty body. */
  lemma ExchangeErrorIff(reply: Reply)
    ensures ExchangeError(Classify(reply)).None? <==>
      (reply.Some? && reply.value.status == OK
       && (reply.value.contentLength <= 0 || ReadBodyAsXml(reply.value).Some?))
  {
    match Classify(reply)
    case Unreachable =>
    case ServerError(_, _) =>
    case EmptyBody =>
    case BadXml =>
    case Decoded(_) =>
  }

  // ---------------------------------------------------------------------------
  // readResultNode

  datatype Check = Pass | Fail(message: string)

  function CodePath(response: string): Path {
    ContentChild(response, [Trans("Result"), Trans("Code")])
  }

  function DescriptionPath(response: string): Path {
    ContentChild(response, [Trans("Result"), Trans("Description")])
  }

  /** A WV-CSP success code: three characters starting with '2'. */
  predicate IsSuccessCode(code: string) {
    |code| == 3 && code[0] == '2'
  }

  /** readResultNode, on the document: the first Result Code under the named response, then its Description. */
  function ReadResult(doc: Doc, response: string): Check {
    match SelectSingleNode(doc, CodePath(response))
    case None => Fail("Unknow response")
    case Some(node) =>
      var code := node.text;
      if |code| == 3 && code[0] == '2' then Pass
      else
        var description := match SelectSingleNode(doc, DescriptionPath(response))
          case Some(d) => d.text
          case None => "";
        Fail(code + " " + description)
  }

  /**
   * readResultNode: the transaction passes exactly when the Result Code under
   * the named response is a success code; otherwise the error is the code
   * and the description (empty when absent), or "Unknow response" when there
   * is no code at all.
   */
  lemma ReadResultMeaning(doc: Doc, response: string)
    ensures var c := ReadResult(doc, response);
      var code := InnerText(doc, CodePath(response));
      (c == Pass <==> code.Some? && IsSuccessCode(code.value))
      && (code.None? ==> c == Fail("Unknow response"))
      && (code.Some? && c.Fail? ==> c.message == code.value + " " + InnerText(doc, DescriptionPath(response)).GetOr(""))
  {
  }

  // ---------------------------------------------------------------------------
  // Lookups in a decoded response

  function SessionIdPath(): Path { ContentChild("Login-Response", [Trans("SessionID")]) }

  function ContactListPath(): Path { ContentChild("GetList-Response", [Trans("ContactList")]) }

  function AliasPath(): Path {
    ContentChild("GetPresence-Response",
      [Trans("Presence"), Pres("PresenceSubList"), Pres("Alias"), Pres("PresenceValue")])
  }

  function NickNamePath(): Path {
    ContentChild("ListManage-Response", [Trans("NickList"), Trans("NickName")])
  }

  function SearchUserPath(): Path {
    ContentChild("Search-Response",
      [Trans("SearchResult"), Trans("UserList"), Trans("User"), Trans("UserID")])
  }

  /**
   * The foreach over the GetList ContactList elements: found as soon as one
   * has exactly the probed text.
   */
  method FindList(texts: seq<string>, probe: string) returns (found: bool)
    ensures found <==> probe in texts
  {
    found := false;
    var i := 0;
    while i < |texts|
      invariant 0 <= i <= |texts|
      invariant probe !in texts[..i]
    {
      if texts[i] == probe {
        found := true;
        break;
      }
      i := i + 1;
    }
    if !found {
      assert texts[..i] == texts;
    }
  }

  /** The text of the last child with the given name, None when there is none. */
  function LastText(children: seq<Child>, name: string): (r: Option<string>)
    ensures r.Some? <==> exists k :: 0 <= k < |children| && children[k].name == name
    ensures r.Some? ==>
      exists k :: (0 <= k < |children| && children[k].name == name && children[k].text == r.value
                   && forall k' :: k < k' < |children| ==> children[k'].name != name)
  {
    if |children| == 0 then None
    else
      var last := children[|children| - 1];
      if last.name == name then Some(last.text)
      else
        var r := LastText(children[..|children| - 1], name);
        assert forall k :: 0 <= k < |children| - 1 ==> children[..|children| - 1][k] == children[k];
        r
  }

  /**
   * The inner foreach over a NickName's children: a "Name" child sets the
   * alias and a "UserID" child sets the id, the last of each winning; other
   * children are skipped.
   */
  method ReadNickName(children: seq<Child>) returns (alias: Option<string>, id: Option<string>)
    ensures alias == LastText(children, "Name")
    ensures id == LastText(children, "UserID")
  {
    alias, id := None, None;
    for i := 0 to |children|
      invariant alias == LastText(children[..i], "Name")
      invariant id == LastText(children[..i], "UserID")
    {
      assert children[..i + 1][..i] == children[..i];
      var child := children[i];
      if child.name == "Name" {
        alias := Some(child.text);
      } else if child.name == "UserID" {
        id := Some(child.text);
      }
    }
    assert children[..|children|] == children;
  }

  /** The message of the NullReferenceException parsePhone raises on a null id. */
  const NullIdMessage: string := "Object reference not set to an instance of an object."

  /** The message of the ArgumentOutOfRangeException of Substring with a negative length. */
  const NegativeLengthMessage: string := "Length cannot be less than zero.\r\nParameter name: length"

  /** new Contact(alias, id): throws on a null id, and on an id parsePhone cannot cut. */
  function ContactOf(alias: Option<string>, id: Option<string>): (r: Result<Contact>)
    ensures r.Ok? <==> id.Some? && PhoneParsable(id.value)
    ensures r.Ok? ==> r.value == NewContact(alias, id.value, Unknow)
  {
    match id
    case None => Err(NullIdMessage)
    case Some(i) => if PhoneParsable(i) then Ok(NewContact(alias, i, Unknow)) else Err(NegativeLengthMessage)
  }

  /** The contact one NickName element yields. */
  function NickNameContact(node: Node): Result<Contact> {
    ContactOf(LastText(node.children, "Name"), LastText(node.children, "UserID"))
  }

  /** What `new Contact(alias, id)` gives for each NickName element, in order. */
  function NickNameContacts(nodes: seq<Node>): (rs: seq<Result<Contact>>)
    ensures |rs| == |nodes| && forall k :: 0 <= k < |nodes| ==> rs[k] == NickNameContact(nodes[k])
  {
    seq(|nodes|, k requires 0 <= k < |nodes| => NickNameContact(nodes[k]))
  }

  /**
   * The values of a run of computations that each may throw, in order; the
   * first exception stops the run and is the result.
   */
  function Collect<T>(rs: seq<Result<T>>): (r: Result<seq<T>>)
    ensures r.Ok? <==> forall k :: 0 <= k < |rs| ==> rs[k].Ok?
    ensures r.Ok? ==> |r.value| == |rs| && forall k :: 0 <= k < |rs| ==> r.value[k] == rs[k].value
    ensures r.Err? ==>
      exists k :: (0 <= k < |rs| && rs[k].Err? && r.error == rs[k].error
                   && forall j :: 0 <= j < k ==> rs[j].Ok?)
    decreases |rs|
  {
    if |rs| == 0 then Ok([])
    else
      var front := rs[..|rs| - 1];
      assert forall k :: 0 <= k < |rs| - 1 ==> front[k] == rs[k];
      match Collect(front)
      case Err(e) => Err(e)
      case Ok(vs) =>
        match rs[|rs| - 1]
        case Err(e) => Err(e)
        case Ok(v) => Ok(vs + [v])
  }

  /** One more computation of the run: its exception, or its value after the others. */
  lemma CollectSnoc<T>(rs: seq<Result<T>>, i: nat)
    requires i < |rs| && Collect(rs[..i]).Ok?
    ensures Collect(rs[..i + 1]) ==
      (if rs[i].Err? then Err(rs[i].error) else Ok(Collect(rs[..i]).value + [rs[i].value]))
  {
    assert rs[..i + 1][..i] == rs[..i];
  }

  /** Once a prefix of the run fails, the rest is never looked at. */
  lemma {:induction false} CollectStopsAtError<T>(rs: seq<Result<T>>, i: nat)
    requires i <= |rs| && Collect(rs[..i]).Err?
    ensures Collect(rs) == Collect(rs[..i])
    decreases |rs| - i
  {
    if i < |rs| {
      assert rs[..i + 1][..i] == rs[..i];
      CollectStopsAtError(rs, i + 1);
    } else {
      assert rs[..i] == rs;
    }
  }

  /**
   * The contacts of a ListManage response, in order; the first NickName that
   * cannot be turned into a contact stops the reading with its exception.
   */
  function ContactsOf(nodes: seq<Node>): (r: Result<seq<Contact>>)
    ensures r.Ok? <==> forall k :: 0 <= k < |nodes| ==> NickNameContact(nodes[k]).Ok?
    ensures r.Ok? ==>
      (|r.value| == |nodes| && forall k :: 0 <= k < |nodes| ==> r.value[k] == NickNameContact(nodes[k]).value)
    ensures r.Err? ==>
      exists k :: (0 <= k < |nodes| && NickNameContact(nodes[k]).Err? && r.error == NickNameContact(nodes[k]).error
                   && forall j :: 0 <= j < k ==> NickNameContact(nodes[j]).Ok?)
  {
    Collect(NickNameContacts(nodes))
  }

  /**
   * The outer foreach of Connect over the NickName elements: each one read
   * with ReadNickName and turned into a contact, in order.
   */
  method CollectContacts(nodes: seq<Node>) returns (r: Result<seq<Contact>>)
    ensures r == ContactsOf(nodes)
  {
    ghost var rs := NickNameContacts(nodes);
    var contacts: seq<Contact> := [];
    for i := 0 to |nodes|
      invariant Collect(rs[..i]) == Ok(contacts)
    {
      var alias, id := ReadNickName(nodes[i].children);
      var contact := ContactOf(alias, id);
      assert contact == rs[i];
      CollectSnoc(rs, i);
      if contact.Err? {
        CollectStopsAtError(rs, i + 1);
        return Err(contact.error);
      }
      contacts := contacts + [contact.value];
    }
    assert rs[..|nodes|] == rs;
    r := Ok(contacts);
  }
}
