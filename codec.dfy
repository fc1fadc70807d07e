/**
 * What the SMS 2.0 session puts on the wire. The login is a form post; every
 * other request is a WV-CSP 1.2 envelope (session type "Inband", transaction
 * mode "Request") whose header carries the session id and a transaction id,
 * and whose TransactionContent is one of the request bodies below, with the
 * constants the builders write into it. The XML text itself (indentation,
 * CR/LF, escaping) is not modelled.
 */
module Sms20Codec {
  import opened Text
  import opened Forms
  import opened Sms20Contacts

  /** The client identity sent with the capability and service requests. */
  const ClientId: string := "WV:InstantMessenger-1.0.2309.16485@COLIBRIA.PC-CLIENT"

  // ---------------------------------------------------------------------------
  // Login form

  /** The form fields of the login post, in the order of the format string. */
  function LoginFields(login: string, pwd: string): seq<Field> {
    [("TM_ACTION", "AUTHENTICATE"), ("TM_PASSWORD", pwd), ("SessionCookie", "ColibriaIMPS_367918656"),
     ("TM_LOGIN", login), ("ClientID", EncodedClientId)]
  }

  /** The client identity with ':' and '@' percent-encoded, as the login form carries it. */
  const EncodedClientId: string := "WV%3A" + "InstantMessenger-1.0.2309.16485" + "%40" + "COLIBRIA.PC-CLIENT"

  function LoginForm(login: string, pwd: string): string {
    Encode(LoginFields(login, pwd))
  }

  /**
   * The server reads the login under TM_LOGIN and the password under
   * TM_PASSWORD, provided neither contains a '&' (values are not escaped).
   */
  lemma LoginFormCarriesCredentials(login: string, pwd: string)
    requires '&' !in login && '&' !in pwd
    ensures var fields := Decode(LoginForm(login, pwd));
      |fields| == 5 && fields[3] == ("TM_LOGIN", login) && fields[1] == ("TM_PASSWORD", pwd)
  {
    var fields := LoginFields(login, pwd);
    assert Plain(fields[0]);
    assert Plain(fields[1]);
    assert Plain(fields[2]);
    assert Plain(fields[3]);
    assert '&' !in "InstantMessenger-1.0.2309.16485" && '&' !in "COLIBRIA.PC-CLIENT";
    assert Plain(fields[4]);
    DecodeEncode(fields);
  }

  // ---------------------------------------------------------------------------
  // Contact list names

  /** A contact list of the user: "wv:" + log + "/~" + pep + "1.0_" + list + "@movistar.es". */
  function ListAddress(log: string, pep: string, list: string): string {
    "wv:" + log + "/~" + pep + "1.0_" + list + "@movistar.es"
  }

  /** The private list, as the list-manage and add-to-private builders write it. */
  function PrivateList(log: string): string { ListAddress(log, "pep", "privatelist") }

  /** The private list, as the remove-from-private builder writes it (upper-case PEP). */
  function PrivateListForRemoval(log: string): string { ListAddress(log, "PEP", "privatelist") }

  /** The subscriptions list, as every builder writes it (upper-case PEP). */
  function SubscriptionsList(log: string): string { ListAddress(log, "PEP", "subscriptions") }

  /** The name Connect looks for among the GetList results (lower-case pep). */
  function SubscriptionsProbe(log: string): string { ListAddress(log, "pep", "subscriptions") }

  lemma UpperConcat(a: string, b: string)
    ensures Upper(a + b) == Upper(a) + Upper(b)
  {
    assert forall i :: 0 <= i < |a + b| ==> Upper(a + b)[i] == (Upper(a) + Upper(b))[i];
  }

  /**
   * The two spellings of a list name differ only in the case of "pep": they
   * are different strings to the ordinal comparison the session makes, while
   * an ASCII case-insensitive comparison would identify them. This is how the
   * subscriptions probe of Connect differs from the name CreateList and
   * SubscribePresence use, and the private list of the removal from the name
   * the other requests use.
   */
  lemma ListNamesDifferInCaseOnly(log: string, list: string)
    ensures ListAddress(log, "pep", list) != ListAddress(log, "PEP", list)
    ensures Upper(ListAddress(log, "pep", list)) == Upper(ListAddress(log, "PEP", list))
  {
    var prefix := "wv:" + log + "/~";
    var rest := "1.0_" + list + "@movistar.es";
    assert ListAddress(log, "pep", list) == prefix + "pep" + rest;
    assert ListAddress(log, "PEP", list) == prefix + "PEP" + rest;
    assert ListAddress(log, "pep", list)[|prefix|] != ListAddress(log, "PEP", list)[|prefix|];
    UpperConcat(prefix + "pep", rest);
    UpperConcat(prefix + "PEP", rest);
    UpperConcat(prefix, "pep");
    UpperConcat(prefix, "PEP");
    assert Upper("pep") == "PEP" == Upper("PEP");
  }

  // ---------------------------------------------------------------------------
  // Request bodies

  datatype NickName = NickName(name: string, userId: string)

  datatype CapabilityList = CapabilityList(
    clientType: string, initialDeliveryMethod: string, acceptedContentTypes: seq<string>,
    acceptedTransferEncoding: string, acceptedContentLength: nat, multiTrans: nat,
    parserSize: nat, supportedCirMethod: string, colibriaExtensions: bool)

  datatype ClientInfo = ClientInfo(
    clientType: string, clientTypeDetail: string, clientProducer: string, model: string, clientVersion: string)

  /** The TransactionContent of each request the session sends. */
  datatype Body =
    | ClientCapabilityRequest(clientId: string, capabilities: CapabilityList)
    | ServiceRequest(clientId: string, features: seq<string>, allFunctionsRequest: bool)
    | UpdatePresenceRequest(clientInfo: ClientInfo, commCap: string, commStatus: string, availability: string)
    | LiteUpdatePresenceRequest(alias: string)
    | GetListRequest
    | GetPresenceRequest(userId: string, attributes: seq<string>)
    | ListManageRequest(contactList: string, addNickList: seq<NickName>, removeNickList: seq<string>, receiveList: bool)
    | CreateListRequest(contactList: string, nickList: seq<NickName>)
    | SubscribePresenceRequest(contactList: string, attributes: seq<string>, autoSubscribe: bool)
    | PollingRequest
    | StatusAck(code: nat)
    | PresenceAuthUser(userId: string, acceptance: bool)
    | UnsubscribePresenceRequest(userId: string)
    | DeleteAttributeListRequest(userId: string, defaultList: bool)
    | CancelAuthRequest(userId: string)
    | SearchRequest(searchElement: string, searchString: string, searchLimit: nat)
    | SendMessageRequest(deliveryReport: bool, contentType: string, contentSize: nat,
                         recipient: string, sender: string, contentData: string)
    | LogoutRequest

  /** getCommonHeaderData: the session id (null before login) and the transaction id. */
  datatype Header = Header(sessionId: Option<string>, transactionId: int)

  /** A request on the wire: the login form post, or a WV-CSP envelope. */
  datatype Request = LoginPost(form: string) | Envelope(header: Header, body: Body)

  const PresenceAttributes: seq<string> :=
    ["OnlineStatus", "ClientInfo", "GeoLocation", "FreeTextLocation", "CommCap", "UserAvailability",
     "StatusText", "StatusMood", "Alias", "StatusContent", "ContactInfo"]

  /** The subscription asks for the same attributes as GetPresence except GeoLocation. */
  const SubscribedAttributes: seq<string> :=
    ["OnlineStatus", "ClientInfo", "FreeTextLocation", "CommCap", "UserAvailability",
     "StatusText", "StatusMood", "Alias", "StatusContent", "ContactInfo"]

  function CapabilityBody(): Body {
    ClientCapabilityRequest(ClientId, CapabilityList(
      "COMPUTER", "P",
      ["text/plain", "text/html", "image/png", "image/jpeg", "image/gif", "audio/x-wav", "image/jpg"],
      "BASE64", 256000, 1, 300000, "STCP", true))
  }

  function ServiceBody(): Body {
    ServiceRequest(ClientId, ["FundamentalFeat", "PresenceFeat", "IMFeat", "GroupFeat"], true)
  }

  function UpdatePresenceBody(): Body {
    UpdatePresenceRequest(
      ClientInfo("COMPUTER", "PC", "Colibria As", "TELEFONICA Messenger", "1.0.2309.16485"),
      "IM", "OPEN", "AVAILABLE")
  }

  function ListBody(): Body { GetListRequest }

  function PresenceBody(userId: string): Body { GetPresenceRequest(userId, PresenceAttributes) }

  function ListManageBody(log: string): Body { ListManageRequest(PrivateList(log), [], [], true) }

  /** The NickList of CreateList: one NickName per contact, a null alias written as empty. */
  function NickNames(contacts: seq<Contact>): (nicks: seq<NickName>)
    ensures |nicks| == |contacts|
  {
    seq(|contacts|, i requires 0 <= i < |contacts| => NickName(contacts[i].alias.GetOr(""), contacts[i].id))
  }

  function CreateListBody(log: string, contacts: seq<Contact>): Body {
    CreateListRequest(SubscriptionsList(log), NickNames(contacts))
  }

  function SubscribeBody(log: string): Body {
    SubscribePresenceRequest(SubscriptionsList(log), SubscribedAttributes, true)
  }

  function LiteUpdatePresenceBody(nickname: string): Body { LiteUpdatePresenceRequest(nickname) }

  function PollBody(): Body { PollingRequest }

  function AckBody(): Body { StatusAck(200) }

  function AuthRequestBody(userId: string): Body { PresenceAuthUser(userId, true) }

  function AddToPrivateListBody(log: string, nick: string, userId: string): Body {
    ListManageRequest(PrivateList(log), [NickName(nick, userId)], [], true)
  }

  function AddToSubscriptionsBody(log: string, nick: string, userId: string): Body {
    ListManageRequest(SubscriptionsList(log), [NickName(nick, userId)], [], true)
  }

  function RemoveFromSubscriptionsBody(log: string, userId: string): Body {
    ListManageRequest(SubscriptionsList(log), [], [userId], true)
  }

  function RemoveFromPrivateListBody(log: string, userId: string): Body {
    ListManageRequest(PrivateListForRemoval(log), [], [userId], true)
  }

  function UnsubscribeBody(userId: string): Body { UnsubscribePresenceRequest(userId) }

  function DeleteAttributeListBody(userId: string): Body { DeleteAttributeListRequest(userId, false) }

  function CancelAuthBody(userId: string): Body { CancelAuthRequest(userId) }

  function SearchBody(phoneNumber: string): Body { SearchRequest("USER_MOBILE_NUMBER", phoneNumber, 50) }

  /** getMessageData: ContentSize is the length of the body, in characters. */
  function MessageBody(senderId: string, targetId: string, body: string): Body {
    SendMessageRequest(false, "text/html", |body|, targetId, senderId, body)
  }

  function LogoutBody(): Body { LogoutRequest }

  /**
   * The foreach of getCreateListData: one NickName per contact, in list
   * order, carrying the contact's alias (empty when null) and id.
   */
  method BuildNickList(contacts: seq<Contact>) returns (nicks: seq<NickName>)
    ensures |nicks| == |contacts|
    ensures forall i :: 0 <= i < |contacts| ==>
      nicks[i].userId == contacts[i].id
      && nicks[i].name == (if contacts[i].alias.Some? then contacts[i].alias.value else "")
    ensures nicks == NickNames(contacts)
  {
    nicks := [];
    for i := 0 to |contacts|
      invariant |nicks| == i
      invariant forall k :: 0 <= k < i ==> nicks[k] == NickName(contacts[k].alias.GetOr(""), contacts[k].id)
    {
      var contact := contacts[i];
      var name := if contact.alias.Some? then contact.alias.value else "";
      nicks := nicks + [NickName(name, contact.id)];
    }
  }
}
