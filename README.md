# SMS 2.0 / Movistar web clients, modelled in Dafny

This project models the client library for Movistar's messaging services.
Its main part is the `SMS20` session engine, a client for the OMA IMPS /
Wireless Village Client-Server Protocol 1.2 (the WV-CSP 1.2, WV-TRC 1.2 and
WV-PA 1.2 namespaces). It logs in with a form post and then speaks to the
server through numbered XML envelopes:

- it opens a session (`Connect`) and reads the contact list;
- it polls for notifications and parses them;
- it adds, authorizes and deletes contacts;
- it sends instant messages and disconnects.

Three small web-form clients sit beside it, and each posts one form (or a
few pages) and interprets the reply:

- `Localizame` is the mobile-location service: a login with a session cookie, a location search, the permission pages and the logout;
- `AutoWP` sends a WAP push and maps the service's numeric result codes to messages;
- `SMSSend` sends a web SMS.

All four share the `HttpHelper.ExtractValue` / `ParseCookie` string helpers.

Layout, one module per file:

- `text.dfy` (`Text`): ordinal `String.IndexOf`, ASCII upper-casing, `ExtractValue`, `ParseCookie`, the CR/LF trimming loops.
- `forms.dfy` (`Forms`): form bodies as `string.Format` builds them (`name=value&...`, unescaped), and the reading a server makes of them.
- `http.dfy` (`Http`): the HTTP reply the clients see: none, or a status with a Content-Length, a body and headers.
- `xml.dfy` (`Xml`): a decoded XML document as a map from element path to the elements found there.
- `codec.dfy` (`Sms20Codec`): the SMS 2.0 login form and every envelope body builder, as typed request bodies.
- `contacts.dfy` (`Sms20Contacts`): `Contact` with `parsePhone`, and the `yyyyMMddTHHmmss` timestamps of messages.
- `responses.dfy` (`Sms20Responses`): `doSMS20Request`'s classification of a reply, `readResultNode`, and the readers of the contact list.
- `notifications.dfy` (`Sms20Notifications`): the three poll-notification parsers.
- `runs.dfy` (`Sms20Runs`): each public operation as a function of the server's replies. These are the specifications the methods are proved against, and the lemmas that state what the operations promise are proved about them.
- `session.dfy` (`Sms20`): the `SMS20` class as a Dafny class:
  - the fields `transactionId`, `sessionId`, `alias` and `lastError`;
  - the log `sent` of the requests issued;
  - a scripted server `server(k)`, the reply to the k-th request.
- `localizame.dfy`, `autowp.dfy`, `smssend.dfy`: the three web-form clients as classes with their `_lastError` (and `_cookie`) fields.

The transport is a parameter. `server: nat -> Reply` gives the reply to
each request in the order the client issues them, so the methods are
proved against the specification functions for every possible server.
The requests a method sends are recorded in the `sent` log. For the
session engine each envelope records the session id and transaction id of
its header and its typed body.

Facts of the source that the model keeps as written:

- The subscriptions-list check in `Connect` looks for the lower-case `pep1.0_subscriptions` list. The list it creates and subscribes to is the upper-case `PEP1.0_subscriptions` (`Sms20Codec.ListNamesDifferInCaseOnly`).
- `AddContact` does not check the result code of its presence query; `AuthorizeContact` does.
- `Login` posts a form, not an envelope, and consumes no transaction id.
- The SMS 2.0 `Login` reports a failing status by the enumeration name of the status code. The envelope exchange reports it by the number. `Localizame` also uses the number; `AutoWP` and `SMSSend` use the name. `Response` carries both.

## Model

| member | source | states |
|---|---|---|
| Text.IndexOfFromIsFirst | classes/SMS20.cs:1165-1177 | `String.IndexOf(pat, from)` (ordinal) is exactly the first occurrence at or after `from`, and -1 exactly when there is none |
| Text.IndexOfChar | classes/SMS20.cs:1307-1312 | `IndexOf` of one character is -1 iff the character is absent, else the index of its first occurrence |
| Text.ContainsIff | classes/Localizame.cs:65 | the `IndexOf(...) > -1` test is true exactly when the pattern occurs somewhere, and `IndexOf` then points at an occurrence |
| Text.Upper | classes/SMS20.cs:484 | upper-casing keeps the length and upper-cases every character in place |
| Text.UpperEqualsIff | classes/SMS20.cs:484-486 | a string upper-cases to an upper-case word iff it has its length and matches it letter by letter ignoring case |
| Text.ExtractValue | classes/SMS20.cs:1165-1177 | a value is found iff the first `from` is followed by a `to` starting after it, and it is exactly the text between those two |
| Text.ParseCookie | classes/Localizame.cs:397-400 | the result always has the shape `s=...;skf=...`, and is `s=;skf=` when neither part is present |
| Text.ParseCookieParts | classes/Localizame.cs:397-400 | when both `s=` and `skf=` are delimited by `;`, the result is `s=` + the first value + `;skf=` + the second |
| Text.ParseCookieWithoutSkf | classes/Localizame.cs:397-400 | when only `s=` is delimited, the result is `s=` + its value + `;skf=` |
| Text.ParseCookieWithoutS | classes/Localizame.cs:397-400 | when only `skf=` is delimited, the result is `s=;skf=` + its value |
| Text.Pad | classes/SMS20.cs:520-527 | a zero-padded decimal numeral has exactly the requested width and only digits |
| Text.NumberPad | classes/SMS20.cs:520-527 | `int.Parse` of a zero-padded numeral gives back the number |
| Text.TrimLineBreaks | classes/SMSSend.cs:64-67 | the two trimming loops leave exactly the body with leading and trailing CR/LF removed |
| Forms.DecodeEncode | classes/SMSSend.cs:37-43 | a form built from fields whose names and values hold no `&` (and names no `=`) is read back as exactly those fields, in order |
| Forms.SplitEncode | classes/SMSSend.cs:37-43 | splitting a built form at `&` gives its `name=value` pairs in order |
| Http.FormReplyBodyShape | classes/AutoWP.cs:61-68 | the kept body is "" unless the Content-Length is positive; otherwise it is a contiguous piece of the body with only CR/LF cut from both ends, and neither of its ends is CR or LF |
| Http.IntToStringHead | classes/Localizame.cs:60 | the decimal text of a status code begins with a digit or '-' |
| Sms20Codec.LoginFormCarriesCredentials | classes/SMS20.cs:35-39 | the login form carries the user as `TM_LOGIN` and the password as `TM_PASSWORD`, read back unaltered |
| Sms20Codec.ListNamesDifferInCaseOnly | classes/SMS20.cs:126 | the list name the existence check looks for differs from the one created (:695) and subscribed (:719), and only in letter case |
| Sms20Codec.BuildNickList | classes/SMS20.cs:698-704 | the CreateList body lists one NickName per contact, in order, with the contact's alias (or "") and id |
| Sms20Codec.NickNames | classes/SMS20.cs:698-704 | one NickName per contact |
| Sms20Contacts.ParsePhone | classes/SMS20.cs:1305-1314 | the phone is the text between the first ':' and the first '@', and "" when either is missing |
| Sms20Contacts.PhoneOfAddress | classes/SMS20.cs:1305-1314 | the phone of `wv:<number>@movistar.es` is the number |
| Sms20Contacts.ParseStamp | classes/SMS20.cs:518-527 | a timestamp is read iff it has at least 15 characters, digits in the six field ranges and valid field values, and then it holds those six fields |
| Sms20Contacts.FormatStampSlices | classes/SMS20.cs:518-527 | each field of a written stamp sits at the offsets `Substring` reads it from |
| Sms20Contacts.FormatStampShaped | classes/SMS20.cs:518-527 | a written stamp has a digit at every position a field is read from |
| Sms20Contacts.ParseFormatStamp | classes/SMS20.cs:518-527 | every valid stamp printed as `yyyyMMddTHHmmss` is read back unchanged |
| Sms20Contacts.StampSeparatorIgnored | classes/SMS20.cs:518-527 | character 8 of the timestamp is never read |
| Sms20Notifications.AvailableIgnoresCase | classes/SMS20.cs:484-491 | the status is online iff the availability text is "AVAILABLE" in any letter case |
| Sms20Notifications.ParsePresenceNotification | classes/SMS20.cs:464-494 | no contact without a UserID; otherwise its id and phone, alias defaulting to "", and status online iff the availability upper-cases to AVAILABLE, else offline |
| Sms20Notifications.ParseAuthNotification | classes/SMS20.cs:495-502 | the contact has the UserID, alias "" and status authPending |
| Sms20Notifications.ParseMessageNotification | classes/SMS20.cs:503-533 | sender and body default to "", the time to `DateTime.MinValue` when absent; an unreadable timestamp gives no message |
| Sms20Notifications.MessageKeepsStamp | classes/SMS20.cs:503-533 | a message carrying a well-formed stamp is received at exactly that time |
| Sms20Responses.ClassifyMeaning | classes/SMS20.cs:987-1027 | no reply, a non-OK status, an empty body (Content-Length ≤ 0), an unparsable body and a document are told apart exactly as `doSMS20Request` does |
| Sms20Responses.ExchangeErrorIff | classes/SMS20.cs:1001-1024 | `_lastError` is left alone exactly when the reply is OK and either empty or a document |
| Sms20Responses.ReadResultMeaning | classes/SMS20.cs:1028-1058 | the check passes iff `Result/Code` exists, has 3 characters and starts with '2'; else the error is code + " " + description, or "Unknow response" without a code |
| Sms20Responses.FindList | classes/SMS20.cs:123-131 | the list-exists flag is set iff some ContactList text equals the probe exactly |
| Sms20Responses.LastText | classes/SMS20.cs:156-167 | the value of a child name is the text of its last occurrence, and absent iff none has that name |
| Sms20Responses.ReadNickName | classes/SMS20.cs:154-167 | the loop over a NickName's children leaves the last Name and the last UserID |
| Sms20Responses.ContactOf | classes/SMS20.cs:168 | a contact is built iff the UserID is present and its phone can be cut out, with that id, the alias and status unknow |
| Sms20Responses.Collect | classes/SMS20.cs:152-170 | all succeed iff every element does, then in order; otherwise the first failure's error |
| Sms20Responses.CollectStopsAtError | classes/SMS20.cs:196-199 | once an element has failed, the rest of the list does not change the outcome |
| Sms20Responses.ContactsOf | classes/SMS20.cs:152-170 | one Contact per NickName node in document order, or the exception of the first node that cannot be read |
| Sms20Responses.CollectContacts | classes/SMS20.cs:152-170 | the loop that adds the contacts computes exactly `ContactsOf` |
| Sms20Runs.JudgeMeaning | classes/SMS20.cs:115 | an exchange step passes iff a document came back and, when its result is checked, the code is 2xx; else its error |
| Sms20Runs.Chain | classes/SMS20.cs:103-116 | a fail-fast run never sends more than its plan, succeeds only after sending it all, and sends at least one request when it fails |
| Sms20Runs.ChainStopsAtFirstFailure | classes/SMS20.cs:103-116 | a fail-fast run passes iff every step passes; otherwise it stops right after the first failing step, with that step's error |
| Sms20Runs.FailFastStopsAtFirstFailure | classes/SMS20.cs:103-194 | the same, stated on the server's replies to the plan |
| Sms20Runs.AttemptedMeaning | classes/SMS20.cs:351-357 | a tolerant step stops iff no document came back; a failing result code only leaves its message in `_lastError` |
| Sms20Runs.Tolerant | classes/SMS20.cs:344-400 | a best-effort run sends at most its plan and succeeds only after all of it |
| Sms20Runs.TolerantStopsAtFirstStop | classes/SMS20.cs:344-400 | a best-effort run passes iff every step got a document, and otherwise stops right after the first that did not |
| Sms20Runs.BestEffortStopsAtFirstMissingDoc | classes/SMS20.cs:344-400 | the same, stated on the server's replies |
| Sms20Runs.DeleteContactIsBestEffort | classes/SMS20.cs:344-400 | `DeleteContact` succeeds iff all five replies are documents, whatever their result codes, and otherwise stops after the first that is not |
| Sms20Runs.AuthorizeContactIsFailFast | classes/SMS20.cs:308-329 | `AuthorizeContact` succeeds iff all three checked steps pass, the presence query included; the ack is sent only after the presence query passed |
| Sms20Runs.Login | classes/SMS20.cs:31-85 | the session id is set iff the reply is OK, parses, has a 2xx `Login-Response` and a SessionID, and `_lastError` is then unchanged; each of the five failures leaves its own message: no reply, server error, bad xml, the result check's message, "Unable to read sessionId" |
| Sms20Runs.Polling | classes/SMS20.cs:207-243 | an empty reply polls as "", a document with content gives its first child, a document without gives "Unspected xml data"; otherwise the transport error |
| Sms20Runs.ClosingSteps | classes/SMS20.cs:172-193 | after the contact list, `Connect` sends CreateList only when the list was not found, then SubscribePresence, then the presence update only when the nick differs from the alias |
| Sms20Runs.ClosingSends | classes/SMS20.cs:172-193 | CreateList is among the closing requests iff the list was not found, and the presence update iff the nick differs from the alias |
| Sms20Runs.ConnectCloseSucceeds | classes/SMS20.cs:172-194 | a successful close returns the contacts read, sends the fixed prefix then the closing steps, and leaves `_alias` equal to the nick |
| Sms20Runs.ConnectSucceeds | classes/SMS20.cs:93-194 | a successful `Connect` returns one contact per NickName node in order, sends its requests in the fixed order, sets `_alias` to the nick and leaves `_lastError` unchanged |
| Sms20Runs.ConnectCreatesListUnlessFound | classes/SMS20.cs:123-131 | on success, CreateList was sent iff no ContactList text equals the lower-case subscriptions list; a server that lists only the upper-case list always gets a CreateList |
| Sms20Runs.ConnectUpdatesAliasOnlyWhenChanged | classes/SMS20.cs:186-193 | on success, the presence update was sent iff the nick differs from the alias the server reported |
| Sms20Runs.ConnectAliasNotFound | classes/SMS20.cs:138-143 | without an alias in the presence reply, `Connect` stops after five requests with "Alias not found" and `_alias` unchanged |
| Sms20Runs.AddContactSucceedsIff | classes/SMS20.cs:251-301 | `AddContact` returns the nick iff both lookups returned documents holding the UserID and the alias and both list updates passed; it then sent exactly the four requests in order |
| Sms20.WireNumbered | classes/SMS20.cs:949-951 | envelopes built one after another carry transaction ids continuing the numbering 1, 2, 3, … |
| Sms20.TransactionIdsDistinct | classes/SMS20.cs:949-963 | the transaction ids of a session increase strictly, and there are exactly as many as envelopes |
| Sms20.EnvelopeIdsBelow | classes/SMS20.cs:949-963 | every envelope sent carries an id between 1 and the counter |
| Sms20.Session.SentSinceKeepsValid | classes/SMS20.cs:949-951 | an operation that appends its envelopes through `SentSince` from a numbered state leaves the numbering intact |
| Sms20.Session.constructor | classes/SMS20.cs:15-18 | a new session has counter 0, no session id, no alias, no error and no request sent |
| Sms20.Session.Post | classes/SMS20.cs:987-1027 | one envelope with the next transaction id is appended whatever the reply; the document, the empty flag and `_lastError` follow the reply's classification |
| Sms20.Session.ReadResultNode | classes/SMS20.cs:1028-1058 | returns the result check and leaves its message in `_lastError` |
| Sms20.Session.Login | classes/SMS20.cs:31-85 | appends the login form, keeps the numbering, and sets `_sessionId` only on success |
| Sms20.Session.Send | classes/SMS20.cs:115-116 | one exchange step: the envelope is appended and the step's verdict decides document and error |
| Sms20.Session.Exchange | classes/SMS20.cs:103-116 | one step of a fail-fast plan keeps the run in step with `FailFast` |
| Sms20.Session.Try | classes/SMS20.cs:351-357 | one tolerant step: the envelope is appended, and only a missing document stops |
| Sms20.Session.Attempt | classes/SMS20.cs:351-357 | one step of a best-effort plan keeps the run in step with `BestEffort` |
| Sms20.Session.Connect | classes/SMS20.cs:93-201 | returns, sends, and leaves `_alias` and `_lastError` exactly as `Sms20Runs.Connect` |
| Sms20.Session.ConnectOpen | classes/SMS20.cs:100-121 | the four opening requests of Connect fail fast as `FailFast` over the opening plan, and on success hand on the ListManage reply |
| Sms20.Session.ConnectRoster | classes/SMS20.cs:133-170 | from the presence query on, `Connect` follows `Sms20Runs.ConnectRoster` |
| Sms20.Session.ConnectContacts | classes/SMS20.cs:147-194 | from the contact list on, `Connect` follows `Sms20Runs.ConnectContacts` |
| Sms20.Session.ConnectFinish | classes/SMS20.cs:172-194 | the closing requests follow `Sms20Runs.ConnectClose` |
| Sms20.Session.Subscribe | classes/SMS20.cs:180-193 | subscribe, then update the presence when the nick changed; `_alias` becomes the nick only when both passed |
| Sms20.Session.AddContact | classes/SMS20.cs:251-301 | returns, sends and leaves `_lastError` exactly as `Sms20Runs.AddContact` |
| Sms20.Session.AddFoundContact | classes/SMS20.cs:270-294 | after the user is found, follows `Sms20Runs.AddFoundContact` |
| Sms20.Session.AuthorizeContact | classes/SMS20.cs:308-336 | the three checked steps, fail-fast |
| Sms20.Session.DeleteContact | classes/SMS20.cs:344-407 | the five removal steps, best-effort |
| Sms20.Session.SendMessage | classes/SMS20.cs:416-435 | one checked SendMessage step |
| Sms20.Session.Disconnect | classes/SMS20.cs:441-460 | one checked Logout step |
| Sms20.Session.Polling | classes/SMS20.cs:207-243 | one Polling envelope; the answer and `_lastError` as `Sms20Runs.Polling` |
| SmsSendApi.SendFormCarriesFields | classes/SMSSend.cs:37-43 | the server reads back TM_ACTION=AUTHENTICATE, TM_LOGIN, TM_PASSWORD, to and message, in that order, unaltered |
| SmsSendApi.SendAnswerMeaning | classes/SMSSend.cs:54-79 | a body is returned iff the status is OK, and it is the trimmed body with `_lastError` untouched; no reply and other statuses give null and their messages |
| SmsSendApi.SmsSend.SendMessage | classes/SMSSend.cs:33-87 | posts the form once and answers as `SendAnswer` |
| AutoWPApi.PushFormCarriesFields | classes/AutoWP.cs:36-42 | the server reads back TME_USER, TME_PASS, WAP_Push_URL and WAP_Push_Text, in that order, unaltered |
| AutoWPApi.PushAnswerMeaning | classes/AutoWP.cs:55-94 | a body is returned iff the status is OK, whatever it is; "0".."9" and "-1" set their fixed messages, any other body is copied into `_lastError`; no reply and other statuses give null and their messages |
| AutoWPApi.AutoWP.SendAutoWP | classes/AutoWP.cs:32-102 | posts the form once and answers as `PushAnswer` |
| LocalizameApi.LoginFormCarriesFields | classes/Localizame.cs:36-40 | the server reads back `usuario`, `clave` and the two fixed coordinates, unaltered |
| LocalizameApi.LocatorQueriesCarryNumber | classes/Localizame.cs:191 | the permission pages read back the number as given |
| LocalizameApi.PageFailureMeaning | classes/Localizame.cs:53-69 | a page passes iff OK without "Acceso Restringido"; "Restricted Access" exactly for an OK page holding it; the numeric status and description otherwise |
| LocalizameApi.LoginMeaning | classes/Localizame.cs:32-115 | `Login` succeeds iff the login page passes, carries a cookie and the new-user page is OK; `_cookie` changes only after the login page passed; the second request is sent, with the cookie, iff one was found; else "Cookie not found!" |
| LocalizameApi.LocatedMeaning | classes/Localizame.cs:159-171 | the location runs from the first occurrence of the number through the end of the first "metros" at or after it, and is "" when either is missing |
| LocalizameApi.LocateAnswerMeaning | classes/Localizame.cs:122-179 | `Locate` answers iff the page passes, then with the location and `_lastError` unchanged; otherwise null and the page's failure |
| LocalizameApi.PermissionAnswerMeaning | classes/Localizame.cs:186-227 | `Authorize` and `Unauthorize` succeed iff their page passes, leaving `_lastError` unchanged |
| LocalizameApi.LogoutIgnoresBody | classes/Localizame.cs:279-312 | `Logout` succeeds iff the status is OK, and its answer depends on nothing but the status and its description |
| LocalizameApi.PermissionIsLogoutPlusRestriction | classes/Localizame.cs:234-274 | the permission pages answer as the logout does, except for the restricted-access page |
| LocalizameApi.Localizame.Login | classes/Localizame.cs:32-115 | issues the requests and leaves the result, `_cookie` and `_lastError` as `LoginRun` |
| LocalizameApi.Localizame.Locate | classes/Localizame.cs:122-179 | one search with the current cookie; answer and `_lastError` as `LocateAnswer` |
| LocalizameApi.Localizame.Authorize | classes/Localizame.cs:186-227 | one permission page with the current cookie; answer as `PermissionAnswer` |
| LocalizameApi.Localizame.Unauthorize | classes/Localizame.cs:234-274 | one permission page with the current cookie; answer as `PermissionAnswer` |
| LocalizameApi.Localizame.Permission | classes/Localizame.cs:200-216 | the three checks of a permission page |
| LocalizameApi.Localizame.Logout | classes/Localizame.cs:279-312 | one logout page with the current cookie; answer as `LogoutAnswer` |

## Left out

- HTTP, TLS and file I/O (`HttpHelper.ExecuteRequest`, `ReadBody`, `Save2disk`, the certificate policy): the server is the parameter `server`, the reply to the k-th request. `Response.text` is the body as read, and `Response.xml` is what `LoadXml` makes of it.
- Request headers other than the Localizame cookie, URLs, content types and user agents are not modelled. The envelopes are modelled as header fields (session id, transaction id) plus a typed body, not as XML text; their whitespace, namespaces and footer are left out.
- XML parsing and XPath: a decoded document is a map from element path to the elements found there; `//` descendant search and `OuterXml` serialization are not modelled. A poll notification is handed on as the decoded child element.
- Text encodings (`Encoding.Default`, ASCII) and culture-sensitive comparison: strings are sequences of characters and `IndexOf` is ordinal.
- Sms20Notifications.ParsePresenceNotification: upper-casing is ASCII only, not the current culture's `ToUpper`.
- Sms20Contacts.ParseStamp: `new DateTime` and `int.Parse` throw on a malformed stamp; the model gives no message instead. Calendar validity is reduced to field ranges with month lengths. The model accepts only digits in each field, while `int.Parse` also accepts leading or trailing white space and a sign: a month field of "+5" or " 5" reads as May in the source and as no stamp in the model.
- Exceptions: the catch-all handlers are modelled only where an exception the model can name reaches them. That is the contact that cannot be read in `Connect`, which gives "MAIN EX: " and a message. Other runtime exceptions ("Internal Error: " in the web clients) are left out. The null dereference in `ParsePollPresenceAuthNotification` and the `Substring` out of range in `parsePhone` (an '@' before the ':') are preconditions.
- Polling-thread concurrency and cancellation: every operation is sequential.
- `GetLastError` accessors are plain field reads and are not modelled separately.
- `AutoWPApi`: the result-code messages use the accented letters the service's messages have; the source file's copy shows replacement characters in their place.
- Sms20.Session: the transaction numbering invariant `Valid` is stated by the constructor and `Login`. The other operations state the exact envelopes they append, through `SentSince`. That the numbering is kept then follows from `Sms20.Session.SentSinceKeepsValid` rather than from each operation's own contract.
- `ParseCookie` and `ExtractValue` are modelled once, in `Text`. The four source copies (classes/SMS20.cs:1154-1177, classes/Localizame.cs:397-420, classes/AutoWP.cs:178-201, classes/SMSSend.cs:162-185) are identical.
