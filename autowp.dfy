/**
 * The WAP Push web-form client (AutoWP): one form post, whose trimmed reply
 * body is returned on status OK and translated into _lastError by the
 * service's table of result codes.
 */
module AutoWPApi {
  import opened Text
  import opened Forms
  import opened Http

  /** The fields of the post, in the order of the format string. */
  function PushFields(login: string, pwd: string, url: string, text: string): seq<Field> {
    [("TME_USER", login), ("TME_PASS", pwd), ("WAP_Push_URL", url), ("WAP_Push_Text", text)]
  }

  function PushForm(login: string, pwd: string, url: string, text: string): string {
    Encode(PushFields(login, pwd, url, text))
  }

  /**
   * The service reads back every field, in order, with its value unaltered,
   * as long as no value contains a '&' (values are not escaped).
   */
  lemma PushFormCarriesFields(login: string, pwd: string, url: string, text: string)
    requires '&' !in login && '&' !in pwd && '&' !in url && '&' !in text
    ensures Decode(PushForm(login, pwd, url, text)) == PushFields(login, pwd, url, text)
  {
    var fields := PushFields(login, pwd, url, text);
    assert Plain(fields[0]);
    assert Plain(fields[1]);
    assert Plain(fields[2]);
    assert Plain(fields[3]);
    DecodeEncode(fields);
  }

  /** The result codes the service answers with, and the description _lastError takes for each. */
  const Messages: map<string, string> := map[
    "0" := "OK. No se ha producido ningún error",
    "1" := "El formato del usuario es incorrecto. Por favor vuelve a introducirlo",
    "2" := "La URL introducida no es válida",
    "3" := "El formato de la clave es incorrecto. Por favor, vuelve a introducirla teniendo en cuenta que debe tener 8 dígitos",
    "4" := "El usuario tiene el acceso denegado",
    "5" := "El usuario no está dado de alta",
    "6" := "La contraseña introducida no es válida",
    "7" := "El usuario tiene el alta caducada",
    "8" := "El formato del texto es incorrecto. Por favor, vuelve a introducirla teniendo en cuenta que no puede superar los 160 caracteres",
    "9" := "No se ha podido establecer la comunicación",
    "-1" := "Error en la petición POST, por falta de parámetros o nombres incorrectos"]

  /** What SendAutoWP returns and leaves in _lastError, given the reply to its post. */
  function PushAnswer(reply: Reply, err: string): Answer<Option<string>> {
    match reply
    case None => Answer(None, "Unable to connect web service")
    case Some(r) =>
      if r.status == OK then
        var body := FormReplyBody(r);
        Answer(Some(body), if body in Messages then Messages[body] else body)
      else Answer(None, "Server Error: " + r.statusName + " " + r.description)
  }

  /**
   * SendAutoWP returns the trimmed body exactly when a reply came with status
   * OK, whatever the body says; _lastError is then the description of the
   * result code, or the body itself when it is not a code. A missing reply
   * and any other status give null and their own messages.
   */
  lemma PushAnswerMeaning(reply: Reply, err: string)
    ensures var a := PushAnswer(reply, err);
      (a.value.Some? <==> reply.Some? && reply.value.status == OK)
      && (a.value.Some? ==> a.value.value == FormReplyBody(reply.value))
      && (a.value.Some? && a.value.value in Messages ==> a.lastError == Messages[a.value.value])
      && (a.value.Some? && a.value.value !in Messages ==> a.lastError == a.value.value)
      && (reply.None? ==> a.lastError == "Unable to connect web service")
      && (reply.Some? && reply.value.status != OK ==>
            a.lastError == "Server Error: " + reply.value.statusName + " " + reply.value.description)
  {
  }

  class AutoWP {
    /** _lastError */
    var lastError: string
    /** The form bodies posted, in order. */
    var sent: seq<string>
    /** The reply to the k-th post. */
    const server: nat -> Reply

    constructor (server: nat -> Reply)
      ensures lastError == "" && sent == [] && this.server == server
    {
      lastError := "";
      sent := [];
      this.server := server;
    }

    /**
     * SendAutoWP: post the form, keep the body only when the Content-Length
     * is positive, strip its line breaks, then answer by the status and the
     * result code.
     */
    method SendAutoWP(login: string, pwd: string, url: string, text: string) returns (body: Option<string>)
      modifies this`sent, this`lastError
      ensures sent == old(sent) + [PushForm(login, pwd, url, text)]
      ensures var a := PushAnswer(server(|old(sent)|), old(lastError));
        body == a.value && lastError == a.lastError
    {
      var response := server(|sent|);
      sent := sent + [PushForm(login, pwd, url, text)];
      if response.None? {
        lastError := "Unable to connect web service";
        return None;
      }
      var r := response.value;
      var responseBody := "";
      if r.contentLength > 0 {
        responseBody := TrimLineBreaks(ReadBody(r));
      }
      if r.status == OK {
        if responseBody in Messages {
          lastError := Messages[responseBody];
        } else {
          lastError := responseBody;
        }
        return Some(responseBody);
      }
      lastError := "Server Error: " + r.statusName + " " + r.description;
      return None;
    }
  }
}
