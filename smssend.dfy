/**
 * The SMS web-form client (SMSSend): one form post to the operator's
 * gateway, whose reply body is kept, stripped of surrounding line breaks,
 * when the status is OK.
 */
module SmsSendApi {
  import opened Text
  import opened Forms
  import opened Http

  /** The fields of the post, in the order of the format string. */
  function SendFields(login: string, pwd: string, dest: string, msg: string): seq<Field> {
    [("TM_ACTION", "AUTHENTICATE"), ("TM_LOGIN", login), ("TM_PASSWORD", pwd), ("to", dest), ("message", msg)]
  }

  function SendForm(login: string, pwd: string, dest: string, msg: string): string {
    Encode(SendFields(login, pwd, dest, msg))
  }

  /**
   * The gateway reads back every field, in order, with its value unaltered,
   * as long as no value contains a '&' (values are not escaped).
   */
  lemma SendFormCarriesFields(login: string, pwd: string, dest: string, msg: string)
    requires '&' !in login && '&' !in pwd && '&' !in dest && '&' !in msg
    ensures Decode(SendForm(login, pwd, dest, msg)) == SendFields(login, pwd, dest, msg)
  {
    var fields := SendFields(login, pwd, dest, msg);
    assert Plain(fields[0]);
    assert Plain(fields[1]);
    assert Plain(fields[2]);
    assert Plain(fields[3]);
    assert Plain(fields[4]);
    DecodeEncode(fields);
  }

  /** What SendMessage returns and leaves in _lastError, given the reply to its post. */
  function SendAnswer(reply: Reply, err: string): Answer<Option<string>> {
    match reply
    case None => Answer(None, "Unable to connect web service")
    case Some(r) =>
      if r.status == OK then Answer(Some(FormReplyBody(r)), err)
      else Answer(None, "Server Error: " + r.statusName + " " + r.description)
  }

  /**
   * SendMessage returns a body exactly when a reply came with status OK, and
   * then leaves _lastError untouched; the body is the trimmed reply body,
   * whatever it says. A missing reply and any other status give null and
   * their own messages.
   */
  lemma SendAnswerMeaning(reply: Reply, err: string)
    ensures var a := SendAnswer(reply, err);
      (a.value.Some? <==> reply.Some? && reply.value.status == OK)
      && (a.value.Some? ==> a.value.value == FormReplyBody(reply.value) && a.lastError == err)
      && (reply.None? ==> a.lastError == "Unable to connect web service")
      && (reply.Some? && reply.value.status != OK ==>
            a.lastError == "Server Error: " + reply.value.statusName + " " + reply.value.description)
  {
  }

  class SmsSend {
    /** _lastError */
    var lastError: string
    /** The form bodies posted, in order. */
    var sent: seq<string>
    /** The reply to the k-th post. */
    const server: nat -> Reply

    constructor (server: nat -> Reply)
      ensures lastError == "" && sent == [] && this.server == server
    {
      lastError := "";
      sent := [];
      this.server := server;
    }

    /**
     * SendMessage: post the form, keep the body only when the Content-Length
     * is positive, strip its line breaks, and answer by the status.
     */
    method SendMessage(login: string, pwd: string, dest: string, msg: string) returns (body: Option<string>)
      modifies this`sent, this`lastError
      ensures sent == old(sent) + [SendForm(login, pwd, dest, msg)]
      ensures var a := SendAnswer(server(|old(sent)|), old(lastError));
        body == a.value && lastError == a.lastError
    {
      var response := server(|sent|);
      sent := sent + [SendForm(login, pwd, dest, msg)];
      if response.None? {
        lastError := "Unable to connect web service";
        return None;
      }
      var r := response.value;
      var responseBody := "";
      if r.contentLength > 0 {
        responseBody := TrimLineBreaks(ReadBody(r));
      }
      if r.status == OK {
        return Some(responseBody);
      }
      lastError := "Server Error: " + r.statusName + " " + r.description;
      return None;
    }
  }
}
