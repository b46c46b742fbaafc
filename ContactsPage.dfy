/**
 * The state machine of the contacts page (next-web/src/app/page.tsx,
 * component `Home`): eight pieces of component state and the handlers
 * that change them. Every network exchange is replaced by a `Reply`
 * parameter, the outcome the server would give, and every handler returns
 * the `Request` it sends (or `None` when it returns before sending one).
 * A handler runs as one atomic step; the busy flags it raises are lowered
 * again in its `finally` part before the step ends.
 */
module ContactsPage {
  import opened Wrappers
  import opened Mobile
  import opened ContactList

  const InvalidMobileMessage := "Mobile must start with 01 and contain digits only."
  const LoadFailedMessage := "Failed to load contacts."
  const CreateFailedMessage := "Failed to create contact."
  const UpdateFailedMessage := "Failed to update contact."
  const DeleteFailedMessage := "Failed to delete contact."
  const UnknownErrorMessage := "Unknown error."

  /** The three text fields of the create form and of the edit form. */
  datatype Draft = Draft(name: string, mobile: string, contactNumber: string)

  const EmptyDraft := Draft("", "", "")

  datatype Field = NameField | MobileField | ContactNumberField

  /**
   * An `onChange` of one input: the name and contact-number inputs store
   * what was typed, the mobile input stores it with every non-digit removed.
   */
  function WithInput(d: Draft, field: Field, raw: string): (r: Draft)
    ensures field == MobileField ==> r == d.(mobile := DigitsOnly(raw))
    ensures field != MobileField ==> r.mobile == d.mobile
    ensures field == NameField ==> r == d.(name := raw)
    ensures field == ContactNumberField ==> r == d.(contactNumber := raw)
    ensures AllDigits(d.mobile) ==> AllDigits(r.mobile)
  {
    match field
    case NameField => d.(name := raw)
    case MobileField => d.(mobile := DigitsOnly(raw))
    case ContactNumberField => d.(contactNumber := raw)
  }

  /** What was thrown inside a handler's `try`. */
  datatype Thrown = ErrorObject(message: string) | OtherValue

  /**
   * The outcome of one `fetch`: a successful response with its parsed body,
   * a response whose `ok` is false, or a rejection (network failure, body
   * that is not JSON) carrying what was thrown.
   */
  datatype Reply<T> = Ok(value: T) | NotOk | Threw(thrown: Thrown)

  /** The request a handler sends: method, path and body. */
  datatype Request =
    | ListContacts
    | CreateContact(body: Draft)
    | UpdateContact(id: int, body: Draft)
    | DeleteContact(id: int)

  /** The `catch` clause: an `Error`'s message, anything else "Unknown error.". */
  function CatchMessage(t: Thrown): (m: string)
    ensures t.ErrorObject? ==> m == t.message
    ensures t.OtherValue? ==> m == UnknownErrorMessage
  {
    match t
    case ErrorObject(m) => m
    case OtherValue => UnknownErrorMessage
  }

  /**
   * The `try` body up to the list update: a response that is not ok throws
   * `new Error(failed)`, a rejection rethrows what it carries.
   */
  function Settle<T>(reply: Reply<T>, failed: string): (r: Result<T, Thrown>)
    ensures r.Success? <==> reply.Ok?
    ensures r.Success? ==> r.value == reply.value
    ensures reply.NotOk? ==> r.error == ErrorObject(failed)
    ensures reply.Threw? ==> r.error == reply.thrown
  {
    match reply
    case Ok(v) => Success(v)
    case NotOk => Failure(ErrorObject(failed))
    case Threw(t) => Failure(t)
  }

  class Page {
    var contacts: seq<Contact>
    var loading: bool
    var error: Option<string>
    var creating: bool
    var editingId: Option<int>
    var busyId: Option<int>
    var form: Draft
    var editForm: Draft

    /** The initial `useState` values. */
    constructor ()
      ensures contacts == [] && !loading && error == None && !creating
      ensures editingId == None && busyId == None
      ensures form == EmptyDraft && editForm == EmptyDraft
    {
      contacts := [];
      loading := false;
      error := None;
      creating := false;
      editingId := None;
      busyId := None;
      form := EmptyDraft;
      editForm := EmptyDraft;
    }

    /** `total`, the count shown in the dashboard pill. */
    function Total(): (n: nat)
      reads this
      ensures n == |contacts|
    {
      |contacts|
    }

    /** `fetchContacts`: load the whole list, replacing what is held. */
    method FetchContacts(reply: Reply<seq<Contact>>) returns (sent: Request)
      modifies this`contacts, this`loading, this`error
      ensures sent == ListContacts
      ensures !loading
      ensures reply.Ok? ==> contacts == reply.value && error == None
      ensures !reply.Ok? ==> contacts == old(contacts)
      ensures reply.NotOk? ==> error == Some(LoadFailedMessage)
      ensures reply.Threw? ==> error == Some(CatchMessage(reply.thrown))
    {
      loading := true;
      error := None;
      sent := ListContacts;
      match Settle(reply, LoadFailedMessage) {
      case Success(data) =>
        contacts := data;
      case Failure(thrown) =>
        error := Some(CatchMessage(thrown));
      }
      loading := false;
    }

    /**
     * `handleCreate`: refuse an invalid mobile before any request; otherwise
     * post the form, put the created contact first and clear the form.
     */
    method HandleCreate(reply: Reply<Contact>) returns (sent: Option<Request>)
      modifies this`contacts, this`form, this`creating, this`error
      ensures !IsValidMobile(old(form.mobile)) ==>
        && sent == None
        && error == Some(InvalidMobileMessage)
        && contacts == old(contacts) && form == old(form) && creating == old(creating)
      ensures IsValidMobile(old(form.mobile)) ==>
        && sent == Some(CreateContact(old(form)))
        && !creating
        && (reply.Ok? ==>
              && contacts == [reply.value] + old(contacts)
              && form == EmptyDraft
              && error == None)
        && (!reply.Ok? ==> contacts == old(contacts) && form == old(form))
        && (reply.NotOk? ==> error == Some(CreateFailedMessage))
        && (reply.Threw? ==> error == Some(CatchMessage(reply.thrown)))
      ensures reply.Ok? && UniqueIds(old(contacts)) && !HasId(old(contacts), reply.value.id) ==>
        UniqueIds(contacts)
    {
      if !IsValidMobile(form.mobile) {
        error := Some(InvalidMobileMessage);
        return None;
      }
      creating := true;
      error := None;
      sent := Some(CreateContact(form));
      match Settle(reply, CreateFailedMessage) {
      case Success(created) =>
        if UniqueIds(contacts) && !HasId(contacts, created.id) {
          PrependKeepsUnique(contacts, created);
        }
        contacts := [created] + contacts;
        form := EmptyDraft;
      case Failure(thrown) =>
        error := Some(CatchMessage(thrown));
      }
      creating := false;
    }

    /** `startEditing`: open the edit session on `c`, dropping any other draft. */
    method StartEditing(c: Contact)
      modifies this`editingId, this`editForm
      ensures editingId == Some(c.id)
      ensures editForm == Draft(c.name, c.mobile, c.contactNumber)
    {
      editingId := Some(c.id);
      editForm := Draft(c.name, c.mobile, c.contactNumber);
    }

    /** The Cancel button: close the edit session, keeping the draft. */
    method CancelEditing()
      modifies this`editingId
      ensures editingId == None
    {
      editingId := None;
    }

    /** One keystroke in an input of the create form. */
    method ChangeForm(field: Field, raw: string)
      modifies this`form
      ensures form == WithInput(old(form), field, raw)
    {
      form := WithInput(form, field, raw);
    }

    /** One keystroke in an input of the edit form. */
    method ChangeEditForm(field: Field, raw: string)
      modifies this`editForm
      ensures editForm == WithInput(old(editForm), field, raw)
    {
      editForm := WithInput(editForm, field, raw);
    }

    /**
     * `handleUpdate(id)`: refuse an invalid edited mobile before any
     * request; otherwise patch the record, replace it in place by id and
     * close the edit session.
     */
    method HandleUpdate(id: int, reply: Reply<Contact>) returns (sent: Option<Request>)
      modifies this`contacts, this`editingId, this`busyId, this`error
      ensures !IsValidMobile(old(editForm.mobile)) ==>
        && sent == None
        && error == Some(InvalidMobileMessage)
        && contacts == old(contacts) && editingId == old(editingId) && busyId == old(busyId)
      ensures IsValidMobile(old(editForm.mobile)) ==>
        && sent == Some(UpdateContact(id, old(editForm)))
        && busyId == None
        && (reply.Ok? ==>
              && contacts == ReplaceById(old(contacts), id, reply.value)
              && editingId == None
              && error == None)
        && (!reply.Ok? ==> contacts == old(contacts) && editingId == old(editingId))
        && (reply.NotOk? ==> error == Some(UpdateFailedMessage))
        && (reply.Threw? ==> error == Some(CatchMessage(reply.thrown)))
      ensures reply.Ok? && reply.value.id == id && UniqueIds(old(contacts)) ==> UniqueIds(contacts)
    {
      if !IsValidMobile(editForm.mobile) {
        error := Some(InvalidMobileMessage);
        return None;
      }
      busyId := Some(id);
      error := None;
      sent := Some(UpdateContact(id, editForm));
      match Settle(reply, UpdateFailedMessage) {
      case Success(updated) =>
        if updated.id == id && UniqueIds(contacts) {
          ReplaceByIdKeepsUnique(contacts, id, updated);
        }
        contacts := ReplaceById(contacts, id, updated);
        editingId := None;
      case Failure(thrown) =>
        error := Some(CatchMessage(thrown));
      }
      busyId := None;
    }

    /** `handleDelete(id)`: delete the record, then drop it from the list by id. */
    method HandleDelete(id: int, reply: Reply<()>) returns (sent: Request)
      modifies this`contacts, this`busyId, this`error
      ensures sent == DeleteContact(id)
      ensures busyId == None
      ensures reply.Ok? ==> contacts == RemoveById(old(contacts), id) && error == None
      ensures !reply.Ok? ==> contacts == old(contacts)
      ensures reply.NotOk? ==> error == Some(DeleteFailedMessage)
      ensures reply.Threw? ==> error == Some(CatchMessage(reply.thrown))
      ensures UniqueIds(old(contacts)) ==> UniqueIds(contacts)
      ensures reply.Ok? && UniqueIds(old(contacts)) ==>
        Total() == if HasId(old(contacts), id) then old(Total()) - 1 else old(Total())
    {
      busyId := Some(id);
      error := None;
      sent := DeleteContact(id);
      match Settle(reply, DeleteFailedMessage) {
      case Success(_) =>
        if UniqueIds(contacts) {
          RemoveByIdKeepsUnique(contacts, id);
          RemoveByIdShrinksByOne(contacts, id);
        }
        contacts := RemoveById(contacts, id);
      case Failure(thrown) =>
        error := Some(CatchMessage(thrown));
      }
      busyId := None;
    }
  }

  /** A create with mobile "017001" that the server accepts. */
  method ScenarioCreateSucceeds(server: Contact) returns (page: Page, req: Option<Request>)
    ensures req == Some(CreateContact(Draft("Momin", "017001", "")))
    ensures page.contacts == [server] && page.form == EmptyDraft && page.error == None
  {
    page := new Page();
    page.ChangeForm(NameField, "Momin");
    page.ChangeForm(MobileField, "017001");
    MobileExamples();
    DigitsOnlyKeepsDigits("017001");
    req := page.HandleCreate(Ok(server));
  }

  /** A create with mobile "9001" is refused before any request. */
  method ScenarioCreateRefused(server: Contact) returns (page: Page, req: Option<Request>)
    ensures req == None && page.contacts == []
    ensures page.error == Some(InvalidMobileMessage)
  {
    page := new Page();
    page.ChangeForm(MobileField, "9001");
    MobileExamples();
    DigitsOnlyKeepsDigits("9001");
    req := page.HandleCreate(Ok(server));
  }

  /** An update of id 5 that fails leaves the edit session on id 5 and the list as it was. */
  method ScenarioUpdateFails(held: Contact) returns (page: Page, req: Option<Request>)
    requires held.id == 5 && IsValidMobile(held.mobile)
    ensures req.Some?
    ensures page.editingId == Some(5) && page.contacts == [held]
    ensures page.editForm == Draft("Riyadh", held.mobile, held.contactNumber)
    ensures page.error == Some(UpdateFailedMessage) && page.busyId == None
  {
    page := new Page();
    var sent := page.FetchContacts(Ok([held]));
    page.StartEditing(held);
    page.ChangeEditForm(NameField, "Riyadh");
    req := page.HandleUpdate(5, NotOk);
  }
}
