/** The contact form of backend/routes/contactRoutes.js with the schema of
    backend/models/ContactMessage.js: the input guards and the email
    pattern, the normalised message that is stored, the admin listing and
    the status update. Messages are kept newest first. */
module ContactRoutes {
  import opened Wrappers
  import opened Text
  import opened Seqs

  /** The request body of `POST /api/contact`; an absent field is "". */
  datatype ContactForm = ContactForm(name: string, email: string, phone: string, message: string)

  /** A stored message. */
  datatype ContactMessage = ContactMessage(id: string, name: string, email: string, phone: string,
                                           message: string, status: string)

  const MissingFields := "Please provide name, email, and message"
  const BadEmail := "Please provide a valid email address"
  const NotFoundMessage := "Message not found"
  const SchemaFailure := "ContactMessage validation failed"

  /** The schema's `enum` for `status`. */
  predicate ValidStatus(s: string) {
    s == "new" || s == "read" || s == "replied"
  }

  /** What the schema guarantees of every stored message: the text fields
      are trimmed, the required ones non-empty, the email valid and in lower
      case, and the status one of the three the schema allows. */
  predicate Normal(m: ContactMessage) {
    && Trimmed(m.name) && m.name != ""
    && Trimmed(m.message) && m.message != ""
    && Trimmed(m.phone)
    && IsEmail(m.email) && LowerCase(m.email)
    && ValidStatus(m.status)
  }

  /** Neither starting nor ending with whitespace: what `trim` leaves. */
  predicate Trimmed(s: string) {
    s == [] || (!IsSpace(s[0]) && !IsSpace(s[|s| - 1]))
  }

  /** No upper-case letter: what `toLowerCase` leaves. */
  predicate LowerCase(s: string) {
    forall k :: 0 <= k < |s| ==> !('A' <= s[k] <= 'Z')
  }

  /** `trim` leaves trimmed text as it is. */
  lemma TrimmedIsFixed(s: string)
    requires Trimmed(s)
    ensures Trim(s) == s
  {
    if s != [] {
      assert TrimStart(s) == s;
      assert TrimEnd(s) == s;
    }
  }

  /** `toLowerCase` leaves lower-case text as it is. */
  lemma LowerIsFixed(s: string)
    requires LowerCase(s)
    ensures ToLower(s) == s
  {
  }

  /** `POST /api/contact`: a missing required field, then an email that
      fails the pattern, give 400; a name or message of blank text passes
      the first guard but is empty once trimmed, which the schema's
      `required` refuses. */
  function Received(id: string, f: ContactForm): (r: Result<ContactMessage>)
    ensures r == Err(BadRequest, MissingFields) <==> f.name == "" || f.email == "" || f.message == ""
    ensures r == Err(BadRequest, BadEmail) <==>
      f.name != "" && f.email != "" && f.message != "" && !IsEmail(f.email)
    ensures r.Err? && r.status == ServerError <==>
      f.name != "" && f.email != "" && f.message != "" && IsEmail(f.email) &&
      (IsBlank(f.name) || IsBlank(f.message))
    ensures r.Ok? ==> r.value.id == id && r.value.status == "new"
    ensures r.Ok? ==> r.value.name == Trim(f.name) && r.value.message == Trim(f.message)
    ensures r.Ok? ==> r.value.email == ToLower(Trim(f.email)) && r.value.phone == Trim(f.phone)
  {
    if f.name == "" || f.email == "" || f.message == "" then Err(BadRequest, MissingFields)
    else if !IsEmail(f.email) then Err(BadRequest, BadEmail)
    else
      var m := ContactMessage(id, Trim(f.name), ToLower(Trim(f.email)),
                              if f.phone != "" then Trim(f.phone) else "", Trim(f.message), "new");
      if m.name == "" || m.message == "" then Err(ServerError, SchemaFailure) else Ok(m)
  }

  /** Each run of the pattern excludes whitespace, so a valid email has
      none. */
  lemma EmailHasNoSpace(s: string)
    requires IsEmail(s)
    ensures forall k :: 0 <= k < |s| ==> !IsSpace(s[k])
  {
    var at := IndexOf(s, '@').value;
    forall k | 0 <= k < |s| ensures !IsSpace(s[k]) {
      if k < at {
        assert s[k] == s[..at][k];
      } else if k > at {
        assert s[k] == s[at + 1..][k - at - 1];
      }
    }
  }

  /** Text without whitespace is left alone by `trim`. */
  lemma TrimNoSpace(s: string)
    requires forall k :: 0 <= k < |s| ==> !IsSpace(s[k])
    ensures Trim(s) == s
  {
    if s != [] {
      assert !IsSpace(s[0]) && !IsSpace(s[|s| - 1]);
      assert TrimStart(s) == s;
      assert TrimEnd(s) == s;
    }
  }

  /** Lowercasing keeps the plain runs of an address plain: no character
      becomes whitespace or '@'. */
  lemma LowerPlainPrefix(s: string, b: nat)
    requires b <= |s| && Plain(s[..b])
    ensures Plain(ToLower(s)[..b])
  {
    var t := ToLower(s);
    forall k | 0 <= k < b
      ensures !IsSpace(t[..b][k]) && t[..b][k] != '@'
    {
      assert s[k] == s[..b][k];
    }
  }

  lemma LowerPlainSuffix(s: string, a: nat)
    requires a <= |s| && Plain(s[a..])
    ensures Plain(ToLower(s)[a..])
  {
    var t := ToLower(s);
    forall k | 0 <= k < |s| - a
      ensures !IsSpace(t[a..][k]) && t[a..][k] != '@'
    {
      assert s[a + k] == s[a..][k];
    }
  }

  /** `toLowerCase` keeps an address valid: the '@' stays where it was,
      and the runs around it stay plain. */
  lemma LowerKeepsEmail(s: string)
    requires IsEmail(s)
    ensures IsEmail(ToLower(s))
  {
    var t := ToLower(s);
    var at := IndexOf(s, '@').value;
    var j :| at + 1 < j < |s| - 1 && s[j] == '.';
    IndexOfFirst(t, '@', at);
    LowerPlainPrefix(s, at);
    LowerPlainSuffix(s, at + 1);
    assert at + 1 < j < |t| - 1 && t[j] == '.';
  }

  /** The guards pass exactly when the stored message satisfies the
      schema, and then its email is the submitted one in lower case. */
  lemma StoredIsNormal(id: string, f: ContactForm)
    ensures Received(id, f).Ok? ==> Normal(Received(id, f).value) && Received(id, f).value.email == ToLower(f.email)
  {
    var r := Received(id, f);
    if r.Ok? {
      StoredEmail(f.email);
    }
  }

  /** The stored email: trimming changes nothing, and lowercasing keeps
      the address valid. */
  lemma StoredEmail(email: string)
    requires IsEmail(email)
    ensures ToLower(Trim(email)) == ToLower(email)
    ensures IsEmail(ToLower(email)) && LowerCase(ToLower(email))
  {
    EmailHasNoSpace(email);
    TrimNoSpace(email);
    LowerKeepsEmail(email);
    LowerHasNoCapital(email);
  }

  /** `toLowerCase` leaves no upper-case letter. */
  lemma LowerHasNoCapital(s: string)
    ensures LowerCase(ToLower(s))
  {
  }

  /** The form a stored message would be submitted as. */
  function Resent(m: ContactMessage): ContactForm {
    ContactForm(m.name, m.email, m.phone, m.message)
  }

  /** A new message in normal form is accepted as it is. */
  lemma NormalIsAccepted(m: ContactMessage)
    requires Normal(m) && m.status == "new"
    ensures Received(m.id, Resent(m)) == Ok(m)
  {
    TrimmedIsFixed(m.name);
    TrimmedIsFixed(m.message);
    TrimmedIsFixed(m.phone);
    StoredEmail(m.email);
    LowerIsFixed(m.email);
    assert !IsBlank(m.name) && !IsBlank(m.message);
  }

  /** Normalisation is a fixed point: submitting a stored message again
      stores the same fields. */
  lemma ResubmitIsStable(id: string, f: ContactForm)
    requires Received(id, f).Ok?
    ensures Received(id, Resent(Received(id, f).value)) == Received(id, f)
  {
    StoredIsNormal(id, f);
    NormalIsAccepted(Received(id, f).value);
  }

  /** `findById`: the position of the message with this id. */
  function IndexOfId(messages: seq<ContactMessage>, id: string): (r: Option<nat>)
    ensures r.Some? ==> r.value < |messages| && messages[r.value].id == id
    ensures r.None? <==> forall k :: 0 <= k < |messages| ==> messages[k].id != id
  {
    FindFirst(messages, (m: ContactMessage) => m.id == id)
  }

  predicate UniqueIds(messages: seq<ContactMessage>) {
    forall i, j :: 0 <= i < j < |messages| ==> messages[i].id != messages[j].id
  }

  predicate AllNormal(messages: seq<ContactMessage>) {
    forall i :: 0 <= i < |messages| ==> Normal(messages[i])
  }

  lemma PrependKeepsValid(messages: seq<ContactMessage>, m: ContactMessage)
    requires UniqueIds(messages) && AllNormal(messages)
    requires Normal(m) && IndexOfId(messages, m.id).None?
    ensures UniqueIds([m] + messages) && AllNormal([m] + messages)
  {
    var s := [m] + messages;
    forall i, j | 0 <= i < j < |s| ensures s[i].id != s[j].id {
      assert s[j] == messages[j - 1];
      if i > 0 { assert s[i] == messages[i - 1]; }
    }
    forall i | 0 <= i < |s| ensures Normal(s[i]) {
      if i > 0 { assert s[i] == messages[i - 1]; }
    }
  }

  lemma UpdateKeepsValid(messages: seq<ContactMessage>, k: nat, status: string)
    requires UniqueIds(messages) && AllNormal(messages)
    requires k < |messages| && ValidStatus(status)
    ensures UniqueIds(messages[k := messages[k].(status := status)])
    ensures AllNormal(messages[k := messages[k].(status := status)])
  {
    var m := messages[k];
    assert Normal(m);
    StatusUpdateKeepsOthers(m, status);
    var s := messages[k := m.(status := status)];
    forall i | 0 <= i < |s| ensures Normal(s[i]) {
      if i != k { assert s[i] == messages[i]; }
    }
  }

  /** The stored messages. */
  class ContactInbox {
    var messages: seq<ContactMessage>

    constructor()
      ensures messages == []
    {
      messages := [];
    }

    predicate Valid()
      reads this
    {
      UniqueIds(messages) && AllNormal(messages)
    }

    /** `POST /api/contact`: only an accepted message is stored. */
    method Submit(id: string, f: ContactForm) returns (r: Result<ContactMessage>)
      modifies this
      ensures r == Received(id, f)
      ensures r.Ok? ==> messages == [r.value] + old(messages)
      ensures r.Err? ==> messages == old(messages)
      ensures old(Valid()) && IndexOfId(old(messages), id).None? ==> Valid()
    {
      r := Received(id, f);
      if r.Ok? {
        StoredIsNormal(id, f);
        if Valid() && IndexOfId(messages, id).None? {
          PrependKeepsValid(messages, r.value);
        }
        messages := [r.value] + messages;
      }
    }

    /** `GET /api/contact`: the hundred newest. */
    method List() returns (r: seq<ContactMessage>)
      ensures |r| == if |messages| < 100 then |messages| else 100
      ensures forall i :: 0 <= i < |r| ==> r[i] == messages[i]
    {
      r := if |messages| < 100 then messages else messages[..100];
    }

    /** `PUT /api/contact/:id/status`: 404 for an unknown id; an empty
        status changes nothing; a status outside the schema's three is
        refused when saving. */
    method UpdateStatus(id: string, status: string) returns (r: Result<ContactMessage>)
      modifies this
      ensures IndexOfId(old(messages), id).None? ==>
        r == Err(NotFound, NotFoundMessage) && messages == old(messages)
      ensures IndexOfId(old(messages), id).Some? ==>
        var k := IndexOfId(old(messages), id).value;
        if status == "" then r == Ok(old(messages)[k]) && messages == old(messages)
        else if ValidStatus(status) then
          r == Ok(old(messages)[k].(status := status)) && messages == old(messages)[k := r.value]
        else r == Err(ServerError, SchemaFailure) && messages == old(messages)
      ensures old(Valid()) ==> Valid()
    {
      var found := IndexOfId(messages, id);
      if found.None? {
        return Err(NotFound, NotFoundMessage);
      }
      var k := found.value;
      var m := messages[k];
      if status == "" {
        return Ok(m);
      }
      if !ValidStatus(status) {
        return Err(ServerError, SchemaFailure);
      }
      if Valid() {
        UpdateKeepsValid(messages, k, status);
      }
      m := m.(status := status);
      messages := messages[k := m];
      r := Ok(m);
    }
  }

  /** Any status the update stores is one the schema allows, and it
      changes no other field. */
  lemma StatusUpdateKeepsOthers(m: ContactMessage, status: string)
    requires Normal(m) && ValidStatus(status)
    ensures Normal(m.(status := status))
    ensures m.(status := status).(status := m.status) == m
  {
  }
}
