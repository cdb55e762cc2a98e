/** The client form of the clients screen: JavaScript's `String.prototype.trim`,
    the payload `createClient` sends, and the screen's state as `createClient`
    and `load` update it. The two network replies are parameters. */
module ClientsScreen {
  import opened Common
  import opened Decimal
  import opened Models

  /** The characters `trim()` removes: ECMAScript's WhiteSpace (tab, vertical
      tab, form feed, no-break space, byte order mark and the space
      separators) and LineTerminator code points. */
  predicate IsJsWhitespace(c: char) {
    var u := c as int;
    u == 0x09 || u == 0x0B || u == 0x0C || u == 0x20 || u == 0xA0 || u == 0xFEFF
    || u == 0x1680 || (0x2000 <= u <= 0x200A) || u == 0x202F || u == 0x205F || u == 0x3000
    || u == 0x0A || u == 0x0D || u == 0x2028 || u == 0x2029
  }

  predicate AllWhitespace(s: string) {
    forall i :: 0 <= i < |s| ==> IsJsWhitespace(s[i])
  }

  /** `s` without its leading whitespace. */
  function TrimStart(s: string): (r: string)
    ensures |r| <= |s| && r == s[|s| - |r|..]
    ensures AllWhitespace(s[..|s| - |r|])
    ensures r == [] || !IsJsWhitespace(r[0])
  {
    if s != [] && IsJsWhitespace(s[0]) then
      var r := TrimStart(s[1..]);
      assert s[..|s| - |r|] == [s[0]] + s[1..][..|s| - 1 - |r|];
      r
    else s
  }

  /** `s` without its trailing whitespace. */
  function TrimEnd(s: string): (r: string)
    ensures |r| <= |s| && r == s[..|r|]
    ensures AllWhitespace(s[|r|..])
    ensures r == [] || !IsJsWhitespace(r[|r| - 1])
  {
    if s != [] && IsJsWhitespace(s[|s| - 1]) then
      var r := TrimEnd(s[..|s| - 1]);
      assert s[|r|..] == s[..|s| - 1][|r|..] + [s[|s| - 1]];
      r
    else s
  }

  /** `s.trim()`: neither begins nor ends with whitespace. */
  function Trim(s: string): (r: string)
    ensures r == [] || (!IsJsWhitespace(r[0]) && !IsJsWhitespace(r[|r| - 1]))
  {
    TrimEnd(TrimStart(s))
  }

  /** What `trim()` keeps is the middle of `s`, between a whitespace run at
      each end. */
  lemma TrimSlices(s: string) returns (i: int, j: int)
    ensures 0 <= i <= j <= |s| && Trim(s) == s[i..j]
    ensures AllWhitespace(s[..i]) && AllWhitespace(s[j..])
  {
    var t := TrimStart(s);
    var r := TrimEnd(t);
    i, j := |s| - |t|, |s| - |t| + |r|;
    assert t == s[i..];
    assert s[j..] == t[|r|..];
  }

  /** A string trims to the empty string exactly when it is all whitespace. */
  lemma TrimBlank(s: string)
    ensures Trim(s) == "" <==> AllWhitespace(s)
  {
    var i, j := TrimSlices(s);
    if Trim(s) != "" {
      assert Trim(s)[0] == s[i];
    } else {
      assert i == j;
      forall k | 0 <= k < |s|
        ensures IsJsWhitespace(s[k])
      {
        if k < i {
          assert s[..i][k] == s[k];
        } else {
          assert s[j..][k - j] == s[k];
        }
      }
    }
  }

  /** Trimming twice trims nothing more. */
  lemma TrimIdempotent(s: string)
    ensures Trim(Trim(s)) == Trim(s)
  {
    var t := Trim(s);
    assert TrimStart(t) == t;
    assert TrimEnd(t) == t;
  }

  /** `s.trim() || null`: the trimmed text, or null when nothing is left. */
  function OrNull(s: string): (r: Option<string>)
    ensures r.None? <==> AllWhitespace(s)
    ensures r.Some? ==> r.value == Trim(s) && r.value != ""
  {
    TrimBlank(s);
    if Trim(s) == "" then None else Some(Trim(s))
  }

  /** The body `createClient` posts. */
  datatype ClientPayload = ClientPayload(firstName: string, lastName: string, phone: Option<string>, email: Option<string>)

  /** Whether the form lacks a first or a last name once trimmed. */
  predicate MissingName(firstName: string, lastName: string) {
    Trim(firstName) == "" || Trim(lastName) == ""
  }

  function BuildPayload(firstName: string, lastName: string, phone: string, email: string): (p: ClientPayload)
    ensures p.firstName == Trim(firstName) && p.lastName == Trim(lastName)
    ensures p.phone == OrNull(phone) && p.email == OrNull(email)
  {
    ClientPayload(Trim(firstName), Trim(lastName), OrNull(phone), OrNull(email))
  }

  /** A payload is already normal: rebuilding it from its own fields, with
      null read back as the empty field, gives the same payload. */
  lemma PayloadNormal(firstName: string, lastName: string, phone: string, email: string)
    ensures var p := BuildPayload(firstName, lastName, phone, email);
            BuildPayload(p.firstName, p.lastName, p.phone.GetOr(""), p.email.GetOr("")) == p
  {
    TrimIdempotent(firstName);
    TrimIdempotent(lastName);
    OrNullIdempotent(phone);
    OrNullIdempotent(email);
  }

  lemma OrNullIdempotent(s: string)
    ensures OrNull(OrNull(s).GetOr("")) == OrNull(s)
  {
    TrimIdempotent(s);
    TrimBlank(Trim(s));
    TrimBlank("");
  }

  /** An accepted form's payload has non-blank names and no blank optional field. */
  lemma AcceptedPayload(firstName: string, lastName: string, phone: string, email: string)
    requires !MissingName(firstName, lastName)
    ensures var p := BuildPayload(firstName, lastName, phone, email);
            p.firstName != "" && p.lastName != ""
            && (p.phone.Some? ==> p.phone.value != "") && (p.email.Some? ==> p.email.value != "")
  {
  }

  /** What `res.json()` gave for the client list: an array of clients, or
      something else. */
  datatype ListBody = ClientArray(items: seq<Client>) | NotAnArray

  /** A reply to a request: `res.ok`, `res.status`, `await res.text()`. */
  datatype Reply = Reply(ok: bool, status: int, text: string)

  /** `Alert.alert(title, message)`. */
  datatype Alert = Alert(title: string, message: string)

  /** `Array.isArray(data) ? data : []`. */
  function ListOrEmpty(body: ListBody): (r: seq<Client>)
    ensures body.NotAnArray? ==> r == []
    ensures body.ClientArray? ==> r == body.items
  {
    match body
    case ClientArray(items) => items
    case NotAnArray => []
  }

  /** The message of the error a failed request throws. */
  function FailureMessage(prefix: string, reply: Reply): string {
    prefix + IntToString(reply.status) + " " + reply.text
  }

  const MissingInfo := Alert("Missing info", "First and last name are required.")
  const ClientAdded := Alert("Client added", "Client saved successfully.")

  /** The screen's state: the loaded client list and the four form fields. */
  class Screen {
    var clients: seq<Client>
    var firstName: string
    var lastName: string
    var phone: string
    var email: string

    constructor ()
      ensures clients == [] && firstName == "" && lastName == "" && phone == "" && email == ""
    {
      clients, firstName, lastName, phone, email := [], "", "", "", "";
    }

    /** `load()`: a failed reply throws and leaves the list; otherwise the
        list becomes the array received, or empty when the body is not one. */
    method Load(reply: Reply, body: ListBody) returns (thrown: Option<string>)
      modifies this
      ensures firstName == old(firstName) && lastName == old(lastName)
      ensures phone == old(phone) && email == old(email)
      ensures !reply.ok ==> thrown == Some(FailureMessage("list clients failed: ", reply)) && clients == old(clients)
      ensures reply.ok ==> thrown.None? && clients == ListOrEmpty(body)
    {
      if !reply.ok {
        return Some(FailureMessage("list clients failed: ", reply));
      }
      clients := ListOrEmpty(body);
      thrown := None;
    }

    /** `createClient()`: refuses a form without both names and sends
        nothing; otherwise posts the normalised payload. A failed post throws
        before the reset, so the form stays as typed; a successful one clears
        all four fields and reloads the list. */
    method CreateClient(created: Reply, listed: Reply, listBody: ListBody)
      returns (sent: Option<ClientPayload>, alert: Alert)
      modifies this
      ensures MissingName(old(firstName), old(lastName)) ==>
                sent.None? && alert == MissingInfo
                && firstName == old(firstName) && lastName == old(lastName)
                && phone == old(phone) && email == old(email) && clients == old(clients)
      ensures !MissingName(old(firstName), old(lastName)) ==>
                sent == Some(BuildPayload(old(firstName), old(lastName), old(phone), old(email)))
      ensures !MissingName(old(firstName), old(lastName)) && !created.ok ==>
                alert == Alert("Error", FailureMessage("Create client failed: ", created))
                && firstName == old(firstName) && lastName == old(lastName)
                && phone == old(phone) && email == old(email) && clients == old(clients)
      ensures !MissingName(old(firstName), old(lastName)) && created.ok ==>
                firstName == "" && lastName == "" && phone == "" && email == ""
                && (listed.ok ==> alert == ClientAdded && clients == ListOrEmpty(listBody))
                && (!listed.ok ==> alert == Alert("Error", FailureMessage("list clients failed: ", listed))
                                   && clients == old(clients))
    {
      if MissingName(firstName, lastName) {
        return None, MissingInfo;
      }
      sent := Some(BuildPayload(firstName, lastName, phone, email));
      if !created.ok {
        return sent, Alert("Error", FailureMessage("Create client failed: ", created));
      }
      alert := ResetAndReload(listed, listBody);
    }

    /** After a successful post: the four fields are cleared, then the list
        is reloaded; a failed reload is reported in an alert. */
    method ResetAndReload(listed: Reply, listBody: ListBody) returns (alert: Alert)
      modifies this
      ensures firstName == "" && lastName == "" && phone == "" && email == ""
      ensures listed.ok ==> alert == ClientAdded && clients == ListOrEmpty(listBody)
      ensures !listed.ok ==> alert == Alert("Error", FailureMessage("list clients failed: ", listed))
                             && clients == old(clients)
    {
      firstName, lastName, phone, email := "", "", "", "";
      var thrown := Load(listed, listBody);
      if thrown.Some? {
        return Alert("Error", thrown.value);
      }
      alert := ClientAdded;
    }
  }
}
