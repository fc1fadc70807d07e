/**
 * The Localizame web client: a login of two requests that leaves a session
 * cookie, a location search whose answer is cut out of the result page, the
 * two permission pages and the logout. Every call starts from the same
 * checks on the reply: a missing reply, a status other than OK and (except
 * for the logout) a page telling that access is restricted.
 */
module LocalizameApi {
  import opened Text
  import opened Forms
  import opened Http

  /** The requests the client issues; the cookie is the _cookie header it sends. */
  datatype Request =
    | LoginPost(form: string)                           // POST login.do
    | NewUserPage(sessionCookie: string)               // GET nuevousuario.do
    | Search(form: string, cookie: Option<string>)      // POST buscar.do
    | AddLocator(query: string, cookie: Option<string>) // GET insertalocalizador.do?...
    | RemoveLocator(query: string, cookie: Option<string>) // GET borralocalizador.do?...
    | LogoutPage(cookie: Option<string>)                // GET logout.do

  /** The text of the page the server shows to a visitor without a session. */
  const RestrictedMarker: string := "Acceso Restringido"

  function LoginFields(login: string, pwd: string): seq<Field> {
    [("usuario", login), ("clave", pwd), ("submit.x", "36"), ("submit.y", "6")]
  }

  function LoginForm(login: string, pwd: string): string {
    Encode(LoginFields(login, pwd))
  }

  function SearchForm(number: string): string {
    Encode([("telefono", number)])
  }

  function AuthorizeFields(number: string): seq<Field> {
    [("telefono", number), ("submit.x", "40"), ("submit.y", "5")]
  }

  function UnauthorizeFields(number: string): seq<Field> {
    [("telefono", number), ("submit.x", "44"), ("submit.y", "8")]
  }

  /** The server reads back the user and password as given when neither contains a '&'. */
  lemma LoginFormCarriesFields(login: string, pwd: string)
    requires '&' !in login && '&' !in pwd
    ensures Decode(LoginForm(login, pwd)) == LoginFields(login, pwd)
  {
    var fields := LoginFields(login, pwd);
    assert Plain(fields[0]);
    assert Plain(fields[1]);
    assert Plain(fields[2]);
    assert Plain(fields[3]);
    DecodeEncode(fields);
  }

  /** The permission pages read back the number as given when it contains no '&'. */
  lemma LocatorQueriesCarryNumber(number: string)
    requires '&' !in number
    ensures Decode(Encode(AuthorizeFields(number))) == AuthorizeFields(number)
    ensures Decode(Encode(UnauthorizeFields(number))) == UnauthorizeFields(number)
  {
    var a := AuthorizeFields(number);
    assert Plain(a[0]) && Plain(a[1]) && Plain(a[2]);
    DecodeEncode(a);
    var u := UnauthorizeFields(number);
    assert Plain(u[0]) && Plain(u[1]) && Plain(u[2]);
    DecodeEncode(u);
  }

  /** The message of the checks every call makes first: no reply, or a status other than OK. */
  function StatusFailure(reply: Reply): Option<string> {
    match reply
    case None => Some("Unable to connect web service")
    case Some(r) =>
      if r.status != OK then Some(IntToString(r.status) + " " + r.description) else None
  }

  /** The checks of a call that reads the page: the status checks, then the restricted-access page. */
  function PageFailure(reply: Reply): Option<string> {
    if StatusFailure(reply).Some? then StatusFailure(reply)
    else if Contains(ReadBody(reply.value), RestrictedMarker) then Some("Restricted Access")
    else None
  }

  /** A reply with status OK whose page does not say access is restricted. */
  predicate PagePasses(reply: Reply) {
    reply.Some? && reply.value.status == OK && !Contains(ReadBody(reply.value), RestrictedMarker)
  }

  /**
   * A page passes exactly when its reply came with status OK and the page
   * read does not hold the restricted-access text; "Restricted Access" is
   * reported exactly for an OK page that holds it, and a failing status is
   * reported by its number and description.
   */
  lemma PageFailureMeaning(reply: Reply)
    ensures PageFailure(reply).None? <==> PagePasses(reply)
    ensures PageFailure(reply) == Some("Restricted Access") <==>
      reply.Some? && reply.value.status == OK && Contains(ReadBody(reply.value), RestrictedMarker)
    ensures reply.None? ==> PageFailure(reply) == Some("Unable to connect web service")
    ensures reply.Some? && reply.value.status != OK ==>
      PageFailure(reply) == Some(IntToString(reply.value.status) + " " + reply.value.description)
  {
    if reply.Some? && reply.value.status != OK {
      var m := IntToString(reply.value.status) + " " + reply.value.description;
      IntToStringHead(reply.value.status);
      assert m[0] == IntToString(reply.value.status)[0];
      assert "Restricted Access"[0] == 'R';
    }
  }

  // ---------------------------------------------------------------------------
  // Login

  /** What Login returns, the requests it issues, and the _cookie and _lastError it leaves. */
  datatype LoginOutcome = LoginOutcome(ok: bool, requests: seq<Request>, cookie: Option<string>, lastError: string)

  /**
   * Login given the replies to its first and second request: the login post
   * must pass the page checks; its Set-Cookie header then replaces _cookie,
   * and only a present cookie leads to the new-user page, which must come
   * back OK.
   */
  function LoginRun(login: string, pwd: string, first: Reply, second: Reply, cookie: Option<string>, err: string): LoginOutcome {
    var post := [LoginPost(LoginForm(login, pwd))];
    if PageFailure(first).Some? then LoginOutcome(false, post, cookie, PageFailure(first).value)
    else
      var found := first.value.setCookie;
      if found.None? then LoginOutcome(false, post, None, "Cookie not found!")
      else
        var requests := post + [NewUserPage(found.value)];
        if StatusFailure(second).Some? then LoginOutcome(false, requests, found, StatusFailure(second).value)
        else LoginOutcome(true, requests, found, err)
  }

  /**
   * Login succeeds exactly when the login page passes, carries a cookie and
   * the new-user page comes back OK; it then keeps that cookie and leaves
   * _lastError as it was. The new-user page is requested, with the cookie,
   * exactly when the login page passed and carried one. _cookie is only
   * replaced once the login page has passed, and then by its Set-Cookie
   * header, absent or not.
   */
  lemma LoginMeaning(login: string, pwd: string, first: Reply, second: Reply, cookie: Option<string>, err: string)
    ensures var o := LoginRun(login, pwd, first, second, cookie, err);
      (o.ok <==> PagePasses(first) && first.value.setCookie.Some?
                 && second.Some? && second.value.status == OK)
      && (o.ok ==> o.cookie == first.value.setCookie && o.lastError == err)
      && o.requests[0] == LoginPost(LoginForm(login, pwd))
      && (|o.requests| == 2 <==> PagePasses(first) && first.value.setCookie.Some?)
      && (|o.requests| == 2 ==> o.requests[1] == NewUserPage(first.value.setCookie.value))
      && (|o.requests| == 1 || |o.requests| == 2)
      && (!PagePasses(first) ==> o.cookie == cookie && !o.ok)
      && (PagePasses(first) ==> o.cookie == first.value.setCookie)
      && (PagePasses(first) && first.value.setCookie.None? ==> o.lastError == "Cookie not found!")
  {
    PageFailureMeaning(first);
  }

  // ---------------------------------------------------------------------------
  // Locate

  /**
   * The location Locate cuts out of the result page `data` for `number`: it
   * starts at the first occurrence of `number` at `i` and runs through the
   * end of the first "metros" that starts at `j`, at or after `i`.
   */
  predicate LocatedAt(data: string, number: string, i: int, j: int) {
    FirstFrom(data, number, 0, i) && FirstFrom(data, "metros", i, j)
  }

  /** The text from the number through the first "metros" after it, or "" when either is missing. */
  function Located(data: string, number: string): string {
    var iStart := IndexOf(data, number);
    if iStart > -1 then
      var iEnd := IndexOfFrom(data, "metros", iStart);
      if iEnd > -1 then data[iStart..iEnd + 6] else ""
    else ""
  }

  /**
   * Located gives the piece of the page from the first occurrence of the
   * number through the end of the first "metros" at or after it, whenever
   * both are there, and "" otherwise; a non-empty answer always ends with
   * "metros".
   */
  lemma LocatedMeaning(data: string, number: string)
    ensures forall i, j :: LocatedAt(data, number, i, j) ==>
      i <= j && j + 6 <= |data| && Located(data, number) == data[i..j + 6]
    ensures (forall i, j :: !LocatedAt(data, number, i, j)) ==> Located(data, number) == ""
    ensures var r := Located(data, number);
      r == "" || (|r| >= 6 && r[|r| - 6..] == "metros")
  {
    forall i, j | LocatedAt(data, number, i, j)
      ensures i <= j && j + 6 <= |data| && Located(data, number) == data[i..j + 6]
    {
      LocatedFound(data, number, i, j);
    }
    if Located(data, number) != "" {
      LocatedNonEmpty(data, number);
    }
  }

  /** Where the number and "metros" are first found, Located cuts from one through the other. */
  lemma LocatedFound(data: string, number: string, i: int, j: int)
    requires LocatedAt(data, number, i, j)
    ensures i <= j && j + 6 <= |data| && Located(data, number) == data[i..j + 6]
  {
    IndexOfFromIsFirst(data, number, 0, i);
    IndexOfFromIsFirst(data, "metros", i, j);
  }

  /** A non-empty location was found where LocatedAt says, and ends with "metros". */
  lemma LocatedNonEmpty(data: string, number: string)
    requires Located(data, number) != ""
    ensures LocatedAt(data, number, IndexOf(data, number), IndexOfFrom(data, "metros", IndexOf(data, number)))
    ensures var r := Located(data, number); |r| >= 6 && r[|r| - 6..] == "metros"
  {
    var iStart := IndexOf(data, number);
    IndexOfFromIsFirst(data, number, 0, iStart);
    var iEnd := IndexOfFrom(data, "metros", iStart);
    IndexOfFromIsFirst(data, "metros", iStart, iEnd);
    var r := data[iStart..iEnd + 6];
    assert r[|r| - 6..] == data[iEnd..iEnd + 6];
  }

  /** What Locate returns and leaves in _lastError, given the reply to its search. */
  function LocateAnswer(reply: Reply, number: string, err: string): Answer<Option<string>> {
    if PageFailure(reply).Some? then Answer(None, PageFailure(reply).value)
    else Answer(Some(Located(ReadBody(reply.value), number)), err)
  }

  /**
   * Locate answers exactly when the result page passes the checks, and then
   * with the location cut out of it, leaving _lastError as it was; otherwise
   * it answers null and reports why.
   */
  lemma LocateAnswerMeaning(reply: Reply, number: string, err: string)
    ensures var a := LocateAnswer(reply, number, err);
      (a.value.Some? <==> PagePasses(reply))
      && (a.value.Some? ==> a.value.value == Located(ReadBody(reply.value), number) && a.lastError == err)
      && (a.value.None? ==> Some(a.lastError) == PageFailure(reply))
  {
    PageFailureMeaning(reply);
  }

  // ---------------------------------------------------------------------------
  // Authorize, Unauthorize and Logout

  /** What Authorize and Unauthorize return and leave in _lastError, given the reply to their page. */
  function PermissionAnswer(reply: Reply, err: string): Answer<bool> {
    if PageFailure(reply).Some? then Answer(false, PageFailure(reply).value) else Answer(true, err)
  }

  /** What Logout returns and leaves in _lastError: only the status is checked. */
  function LogoutAnswer(reply: Reply, err: string): Answer<bool> {
    if StatusFailure(reply).Some? then Answer(false, StatusFailure(reply).value) else Answer(true, err)
  }

  /**
   * Authorize and Unauthorize succeed exactly when their page passes, and
   * then leave _lastError as it was.
   */
  lemma PermissionAnswerMeaning(reply: Reply, err: string)
    ensures var a := PermissionAnswer(reply, err);
      (a.value <==> PagePasses(reply))
      && (a.value ==> a.lastError == err)
      && (!a.value ==> Some(a.lastError) == PageFailure(reply))
  {
    PageFailureMeaning(reply);
  }

  /**
   * Logout succeeds exactly when a reply comes with status OK, and its
   * answer does not depend on the body or the headers of the reply.
   */
  lemma LogoutIgnoresBody(r: Response, s: Response, err: string)
    requires r.status == s.status && r.description == s.description
    ensures LogoutAnswer(Some(r), err) == LogoutAnswer(Some(s), err)
    ensures LogoutAnswer(Some(r), err).value <==> r.status == OK
    ensures LogoutAnswer(None, err) == Answer(false, "Unable to connect web service")
  {
  }

  /**
   * The permission pages differ from the logout only by the restricted-access
   * check: on any reply whose page does not hold that text they answer alike.
   */
  lemma PermissionIsLogoutPlusRestriction(reply: Reply, err: string)
    ensures PermissionAnswer(reply, err) ==
      if reply.Some? && reply.value.status == OK && Contains(ReadBody(reply.value), RestrictedMarker)
      then Answer(false, "Restricted Access")
      else LogoutAnswer(reply, err)
  {
  }

  class Localizame {
    /** _lastError */
    var lastError: string
    /** _cookie, null until a login has found one */
    var cookie: Option<string>
    /** The requests issued, in order. */
    var sent: seq<Request>
    /** The reply to the k-th request. */
    const server: nat -> Reply

    constructor (server: nat -> Reply)
      ensures lastError == "" && cookie == None && sent == [] && this.server == server
    {
      lastError := "";
      cookie := None;
      sent := [];
      this.server := server;
    }

    /** Login: post the credentials, keep the Set-Cookie header, then open the new-user page with it. */
    method Login(login: string, pwd: string) returns (ok: bool)
      modifies this`sent, this`cookie, this`lastError
      ensures var o := LoginRun(login, pwd, server(|old(sent)|), server(|old(sent)| + 1), old(cookie), old(lastError));
        ok == o.ok && sent == old(sent) + o.requests && cookie == o.cookie && lastError == o.lastError
    {
      var response := server(|sent|);
      sent := sent + [LoginPost(LoginForm(login, pwd))];
      if response.None? {
        lastError := "Unable to connect web service";
        return false;
      }
      if response.value.status != OK {
        lastError := IntToString(response.value.status) + " " + response.value.description;
        return false;
      }
      var responseData := ReadBody(response.value);
      if IndexOf(responseData, RestrictedMarker) > -1 {
        lastError := "Restricted Access";
        return false;
      }
      cookie := response.value.setCookie;
      if cookie.None? {
        lastError := "Cookie not found!";
        return false;
      }
      response := server(|sent|);
      sent := sent + [NewUserPage(cookie.value)];
      if response.None? {
        lastError := "Unable to connect web service";
        return false;
      }
      if response.value.status != OK {
        lastError := IntToString(response.value.status) + " " + response.value.description;
        return false;
      }
      return true;
    }

    /** Locate: search for the number with the session cookie and cut the location out of the page. */
    method Locate(number: string) returns (location: Option<string>)
      modifies this`sent, this`lastError
      ensures sent == old(sent) + [Search(SearchForm(number), cookie)]
      ensures var a := LocateAnswer(server(|old(sent)|), number, old(lastError));
        location == a.value && lastError == a.lastError
    {
      var response := server(|sent|);
      sent := sent + [Search(SearchForm(number), cookie)];
      var failure := PageFailure(response);
      if failure.Some? {
        lastError := failure.value;
        return None;
      }
      var responseData := ReadBody(response.value);
      return Some(Located(responseData, number));
    }

    /** Authorize: open the page that lets `number` locate us. */
    method Authorize(number: string) returns (ok: bool)
      modifies this`sent, this`lastError
      ensures sent == old(sent) + [AddLocator(Encode(AuthorizeFields(number)), cookie)]
      ensures var a := PermissionAnswer(server(|old(sent)|), old(lastError));
        ok == a.value && lastError == a.lastError
    {
      var response := server(|sent|);
      sent := sent + [AddLocator(Encode(AuthorizeFields(number)), cookie)];
      ok := Permission(response);
    }

    /** Unauthorize: open the page that withdraws that permission. */
    method Unauthorize(number: string) returns (ok: bool)
      modifies this`sent, this`lastError
      ensures sent == old(sent) + [RemoveLocator(Encode(UnauthorizeFields(number)), cookie)]
      ensures var a := PermissionAnswer(server(|old(sent)|), old(lastError));
        ok == a.value && lastError == a.lastError
    {
      var response := server(|sent|);
      sent := sent + [RemoveLocator(Encode(UnauthorizeFields(number)), cookie)];
      ok := Permission(response);
    }

    /** The checks the two permission pages make on their reply. */
    method Permission(response: Reply) returns (ok: bool)
      modifies this`lastError
      ensures var a := PermissionAnswer(response, old(lastError));
        ok == a.value && lastError == a.lastError
    {
      if response.None? {
        lastError := "Unable to connect web service";
        return false;
      }
      if response.value.status != OK {
        lastError := IntToString(response.value.status) + " " + response.value.description;
        return false;
      }
      if IndexOf(ReadBody(response.value), RestrictedMarker) > -1 {
        lastError := "Restricted Access";
        return false;
      }
      return true;
    }

    /** Logout: open the logout page; only its status matters. */
    method Logout() returns (ok: bool)
      modifies this`sent, this`lastError
      ensures sent == old(sent) + [LogoutPage(cookie)]
      ensures var a := LogoutAnswer(server(|old(sent)|), old(lastError));
        ok == a.value && lastError == a.lastError
    {
      var response := server(|sent|);
      sent := sent + [LogoutPage(cookie)];
      if response.None? {
        lastError := "Unable to connect web service";
        return false;
      }
      if response.value.status != OK {
        lastError := IntToString(response.value.status) + " " + response.value.description;
        return false;
      }
      return true;
    }
  }
}
