/**
 * The values the SMS 2.0 session hands to its caller: contacts (with the
 * phone number parsed out of a "wv:<number>@movistar.es" user id) and
 * instant messages (with the "yyyyMMddTHHmmss" time stamp of the
 * notification decoded).
 */
module Sms20Contacts {
  import opened Text

  /** Contact.ContactStatusEnum: unknow = -1, offline = 0, online = 1, authPending = 2. */
  datatype ContactStatus = Unknow | Offline | Online | AuthPending

  /**
   * Contact: the alias may be null (a NickName without a Name child); the
   * phone is what parsePhone extracts from the id when the object is built.
   */
  datatype Contact = Contact(alias: Option<string>, id: string, status: ContactStatus, phone: string)

  /** The user id the session gives a phone number: "wv:" + number + "@movistar.es". */
  function UserAddress(number: string): string {
    "wv:" + number + "@movistar.es"
  }

  /**
   * parsePhone takes Substring(i1 + 1, i2 - i1 - 1), which throws when the
   * first '@' comes before the first ':'; every other id can be parsed.
   */
  predicate PhoneParsable(id: string) {
    forall i, j :: 0 <= i < |id| && 0 <= j < |id| && FirstAt(id, ':', i) && FirstAt(id, '@', j) ==> i < j
  }

  /**
   * Contact.parsePhone: the text between the first ':' and the first '@',
   * or the empty string when either is missing.
   */
  function ParsePhone(id: string): (phone: string)
    requires PhoneParsable(id)
    ensures ':' !in id || '@' !in id ==> phone == ""
    ensures forall i, j :: FirstAt(id, ':', i) && FirstAt(id, '@', j) ==> phone == id[i + 1..j]
  {
    var i1 := IndexOf(id, ":");
    IndexOfChar(id, ':');
    if i1 > -1 then
      var i2 := IndexOf(id, "@");
      IndexOfChar(id, '@');
      if i2 > -1 then
        assert forall i, j :: FirstAt(id, ':', i) && FirstAt(id, '@', j) ==> i == i1 && j == i2 by {
          forall i, j | FirstAt(id, ':', i) && FirstAt(id, '@', j) ensures i == i1 && j == i2 {
            FirstAtUnique(id, ':', i, i1);
            FirstAtUnique(id, '@', j, i2);
          }
        }
        id[i1 + 1..i2]
      else ""
    else ""
  }

  /** The phone number read back from the user id the session builds for it. */
  lemma PhoneOfAddress(number: string)
    requires ':' !in number && '@' !in number
    ensures PhoneParsable(UserAddress(number))
    ensures ParsePhone(UserAddress(number)) == number
  {
    var id := UserAddress(number);
    var at := 3 + |number|;
    assert id[..2] == "wv";
    assert id[3..at] == number;
    assert id[..at] == "wv:" + number;
    assert FirstAt(id, ':', 2);
    assert FirstAt(id, '@', at);
    forall i, j | FirstAt(id, ':', i) && FirstAt(id, '@', j) ensures i < j {
      FirstAtUnique(id, ':', i, 2);
      FirstAtUnique(id, '@', j, at);
    }
  }

  /** Both Contact constructors: alias, id and status as given, phone parsed from the id. */
  function NewContact(alias: Option<string>, id: string, status: ContactStatus): Contact
    requires PhoneParsable(id)
  {
    Contact(alias, id, status, ParsePhone(id))
  }

  // ---------------------------------------------------------------------------
  // Instant messages and their time stamps

  /** A DateTime to the second. */
  datatype Stamp = Stamp(year: int, month: int, day: int, hour: int, minute: int, second: int)

  /** DateTime.MinValue, 0001-01-01 00:00:00. */
  const MinValue: Stamp := Stamp(1, 1, 1, 0, 0, 0)

  /** InstantMessage: sender id, time received and body. */
  datatype InstantMessage = InstantMessage(sender: string, received: Stamp, body: string)

  predicate IsLeapYear(y: int) {
    y % 4 == 0 && (y % 100 != 0 || y % 400 == 0)
  }

  function DaysInMonth(y: int, m: int): int
    requires 1 <= m <= 12
  {
    if m == 2 then (if IsLeapYear(y) then 29 else 28)
    else if m == 4 || m == 6 || m == 9 || m == 11 then 30
    else 31
  }

  /** The fields the DateTime constructor accepts without throwing. */
  predicate ValidStamp(st: Stamp) {
    1 <= st.year <= 9999 && 1 <= st.month <= 12 && 1 <= st.day <= DaysInMonth(st.year, st.month)
    && 0 <= st.hour < 24 && 0 <= st.minute < 60 && 0 <= st.second < 60
  }

  /**
   * "yyyyMMddTHHmmss": the six Substring calls need 15 characters, and each
   * field must be a numeral; the character at position 8 is never read.
   */
  predicate StampShaped(s: string) {
    |s| >= 15 && forall i :: 0 <= i < 15 && i != 8 ==> IsDigit(s[i])
  }

  function StampFields(s: string): Stamp
    requires StampShaped(s)
  {
    Stamp(Number(s[0..4]), Number(s[4..6]), Number(s[6..8]),
          Number(s[9..11]), Number(s[11..13]), Number(s[13..15]))
  }

  /**
   * The time stamp of a NewMessage notification: None when the text is too
   * short, a field is not a numeral, or the fields are not a date and time
   * (the cases where the DateTime constructor or int.Parse throw).
   */
  function ParseStamp(s: string): (r: Option<Stamp>)
    ensures r.Some? <==> StampShaped(s) && ValidStamp(StampFields(s))
    ensures r.Some? ==> r.value == StampFields(s) && ValidStamp(r.value)
  {
    if StampShaped(s) && ValidStamp(StampFields(s)) then Some(StampFields(s)) else None
  }

  /** The "yyyyMMddTHHmmss" text of a time stamp, as the server writes it. */
  function FormatStamp(st: Stamp): (s: string)
    requires ValidStamp(st)
    ensures |s| == 15
  {
    Pad(st.year, 4) + Pad(st.month, 2) + Pad(st.day, 2) + "T"
    + Pad(st.hour, 2) + Pad(st.minute, 2) + Pad(st.second, 2)
  }

  /** Each field of a written time stamp sits at the offsets the reader takes it from. */
  lemma FormatStampSlices(st: Stamp)
    requires ValidStamp(st)
    ensures FormatStamp(st)[0..4] == Pad(st.year, 4)
    ensures FormatStamp(st)[4..6] == Pad(st.month, 2) && FormatStamp(st)[6..8] == Pad(st.day, 2)
    ensures FormatStamp(st)[9..11] == Pad(st.hour, 2) && FormatStamp(st)[11..13] == Pad(st.minute, 2)
    ensures FormatStamp(st)[13..15] == Pad(st.second, 2)
  {
    var s := FormatStamp(st);
    var date := Pad(st.year, 4) + Pad(st.month, 2) + Pad(st.day, 2);
    var time := Pad(st.hour, 2) + Pad(st.minute, 2) + Pad(st.second, 2);
    assert s == date + "T" + time;
    assert s[0..8] == date && s[9..15] == time;
    assert s[0..4] == date[0..4] && s[4..6] == date[4..6] && s[6..8] == date[6..8];
    assert s[9..11] == time[0..2] && s[11..13] == time[2..4] && s[13..15] == time[4..6];
  }

  /** A written time stamp has a digit everywhere the reader expects one. */
  lemma FormatStampShaped(st: Stamp)
    requires ValidStamp(st)
    ensures StampShaped(FormatStamp(st))
  {
    var s := FormatStamp(st);
    FormatStampSlices(st);
    forall i | 0 <= i < 15 && i != 8
      ensures IsDigit(s[i])
    {
      if i < 4 { assert s[i] == s[0..4][i]; }
      else if i < 6 { assert s[i] == s[4..6][i - 4]; }
      else if i < 8 { assert s[i] == s[6..8][i - 6]; }
      else if i < 11 { assert s[i] == s[9..11][i - 9]; }
      else if i < 13 { assert s[i] == s[11..13][i - 11]; }
      else { assert s[i] == s[13..15][i - 13]; }
    }
  }

  /** Every valid time stamp the server writes is read back unchanged. */
  lemma ParseFormatStamp(st: Stamp)
    requires ValidStamp(st)
    ensures ParseStamp(FormatStamp(st)) == Some(st)
  {
    FormatStampSlices(st);
    FormatStampShaped(st);
    assert Pow10(2) == 100 && Pow10(4) == 10000;
    NumberPad(st.year, 4);
    NumberPad(st.month, 2);
    NumberPad(st.day, 2);
    NumberPad(st.hour, 2);
    NumberPad(st.minute, 2);
    NumberPad(st.second, 2);
    assert StampFields(FormatStamp(st)) == st;
  }

  /** The separator between date and time is never looked at. */
  lemma StampSeparatorIgnored(s: string, c: char)
    requires |s| >= 15
    ensures ParseStamp(s[..8] + [c] + s[9..]) == ParseStamp(s)
  {
    var t := s[..8] + [c] + s[9..];
    assert t[0..8] == s[0..8] && t[9..15] == s[9..15];
    assert t[0..4] == s[0..4] && t[4..6] == s[4..6] && t[6..8] == s[6..8];
    assert t[9..11] == s[9..11] && t[11..13] == s[11..13] && t[13..15] == s[13..15];
    assert forall i :: 0 <= i < 15 && i != 8 ==> t[i] == s[i];
  }
}
