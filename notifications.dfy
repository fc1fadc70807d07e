/**
 * The parsers a caller applies to the payload Polling returns: a presence
 * notification, a presence authorisation request, or a new instant message.
 * Each takes the payload as a decoded document of its own.
 */
module Sms20Notifications {
  import opened Text
  import opened Xml
  import opened Sms20Contacts

  function PresencePath(rest: Path): Path {
    [Trans("PresenceNotification-Request"), Trans("Presence")] + rest
  }

  function PresenceUserPath(): Path { PresencePath([Trans("UserID")]) }

  function PresenceStatusPath(): Path {
    PresencePath([Pres("PresenceSubList"), Pres("UserAvailability"), Pres("PresenceValue")])
  }

  function PresenceAliasPath(): Path {
    PresencePath([Pres("PresenceSubList"), Pres("Alias"), Pres("PresenceValue")])
  }

  function AuthUserPath(): Path { [Trans("PresenceAuth-Request"), Trans("UserID")] }

  function SenderPath(): Path {
    [Trans("NewMessage"), Trans("MessageInfo"), Trans("Sender"), Trans("User"), Trans("UserID")]
  }

  function StampPath(): Path { [Trans("NewMessage"), Trans("MessageInfo"), Trans("DateTime")] }

  function MessageContentPath(): Path { [Trans("NewMessage"), Trans("ContentData")] }

  /** The availability value that means online, compared after upper-casing. */
  predicate IsAvailable(value: string) {
    Upper(value) == "AVAILABLE"
  }

  /** "AVAILABLE" is matched in any mix of upper and lower case, and nothing else is. */
  lemma AvailableIgnoresCase(value: string)
    ensures IsAvailable(value) <==>
      (|value| == 9 && forall i :: 0 <= i < 9 ==> SameLetterIgnoringCase(value[i], "AVAILABLE"[i]))
  {
    var word := "AVAILABLE";
    assert forall i :: 0 <= i < |word| ==> Upper(word)[i] == word[i];
    assert Upper(word) == word;
    UpperEqualsIff(value, word);
  }

  /**
   * ParsePollPresenceNotification: no contact without a UserID; otherwise the
   * contact with that id, the alias (empty when absent), and online exactly
   * when the availability value is AVAILABLE, offline for anything else
   * including a missing value.
   */
  function ParsePresenceNotification(payload: Doc): (c: Option<Contact>)
    requires InnerText(payload, PresenceUserPath()).Some? ==>
               PhoneParsable(InnerText(payload, PresenceUserPath()).value)
    ensures c.None? <==> InnerText(payload, PresenceUserPath()).None?
    ensures c.Some? ==>
      var id := InnerText(payload, PresenceUserPath()).value;
      c.value.id == id && c.value.phone == ParsePhone(id)
      && c.value.alias == Some(InnerText(payload, PresenceAliasPath()).GetOr(""))
      && (c.value.status == Online <==> IsAvailable(InnerText(payload, PresenceStatusPath()).GetOr("")))
      && (c.value.status == Online || c.value.status == Offline)
  {
    match InnerText(payload, PresenceUserPath())
    case None => None
    case Some(id) =>
      var alias := InnerText(payload, PresenceAliasPath()).GetOr("");
      var status := InnerText(payload, PresenceStatusPath()).GetOr("");
      Some(NewContact(Some(alias), id, if Upper(status) == "AVAILABLE" then Online else Offline))
  }

  /**
   * ParsePollPresenceAuthNotification: the requesting user as a contact with
   * an empty alias and the authPending status. The source dereferences the
   * UserID element without a check, so a payload without one is outside the
   * function's domain.
   */
  function ParseAuthNotification(payload: Doc): (c: Contact)
    requires InnerText(payload, AuthUserPath()).Some?
    requires PhoneParsable(InnerText(payload, AuthUserPath()).value)
    ensures c.id == InnerText(payload, AuthUserPath()).value
    ensures c.phone == ParsePhone(c.id)
    ensures c.alias == Some("") && c.status == AuthPending
  {
    NewContact(Some(""), InnerText(payload, AuthUserPath()).value, AuthPending)
  }

  /**
   * ParsePollMessageNotification: sender and body default to empty and the
   * time to DateTime.MinValue; a DateTime element whose text is not a
   * "yyyyMMddTHHmmss" stamp makes the parse throw (None).
   */
  function ParseMessageNotification(payload: Doc): (m: Option<InstantMessage>)
    ensures m.None? <==>
      InnerText(payload, StampPath()).Some? && ParseStamp(InnerText(payload, StampPath()).value).None?
    ensures m.Some? ==>
      m.value.sender == InnerText(payload, SenderPath()).GetOr("")
      && m.value.body == InnerText(payload, MessageContentPath()).GetOr("")
      && (InnerText(payload, StampPath()).None? ==> m.value.received == MinValue)
      && (InnerText(payload, StampPath()).Some? ==>
            Some(m.value.received) == ParseStamp(InnerText(payload, StampPath()).value))
  {
    var sender := InnerText(payload, SenderPath()).GetOr("");
    var body := InnerText(payload, MessageContentPath()).GetOr("");
    match InnerText(payload, StampPath())
    case None => Some(InstantMessage(sender, MinValue, body))
    case Some(text) =>
      match ParseStamp(text)
      case None => None
      case Some(stamp) => Some(InstantMessage(sender, stamp, body))
  }

  /** A message stamped with a valid time carries exactly that time. */
  lemma MessageKeepsStamp(payload: Doc, st: Stamp)
    requires ValidStamp(st)
    requires InnerText(payload, StampPath()) == Some(FormatStamp(st))
    ensures ParseMessageNotification(payload).Some?
    ensures ParseMessageNotification(payload).value.received == st
  {
    ParseFormatStamp(st);
  }
}
