/**
 * frontend/src/pages/VendorManagement.js: the vendor form. Its six text
 * fields are the value `Form`; the page's React state is the class
 * `VendorPage`, and the outcome of the create or update request is a
 * parameter.
 */
module VendorForm {
  import opened Wrappers
  import opened Text
  import opened Ids
  import opened Store

  datatype Form = Form(name: string, email: string, phone: string, company: string, address: string, specialization: string)

  /** The `name` attribute of each input of the form. */
  datatype Field = Name | Email | Phone | Company | Address | Specialization

  function Get(f: Form, field: Field): string {
    match field
    case Name => f.name
    case Email => f.email
    case Phone => f.phone
    case Company => f.company
    case Address => f.address
    case Specialization => f.specialization
  }

  /** `{ ...formData, [e.target.name]: e.target.value }`: the named field takes the value, the other five stay. */
  function SetField(f: Form, field: Field, value: string): (r: Form)
    ensures Get(r, field) == value
    ensures forall other :: other != field ==> Get(r, other) == Get(f, other)
  {
    match field
    case Name => f.(name := value)
    case Email => f.(email := value)
    case Phone => f.(phone := value)
    case Company => f.(company := value)
    case Address => f.(address := value)
    case Specialization => f.(specialization := value)
  }

  /** Two forms that agree on every field are the same form. */
  lemma FieldsDetermineForm(f: Form, g: Form)
    requires forall field :: Get(f, field) == Get(g, field)
    ensures f == g
  {
    assert Get(f, Name) == Get(g, Name) && Get(f, Email) == Get(g, Email) && Get(f, Phone) == Get(g, Phone);
    assert Get(f, Company) == Get(g, Company) && Get(f, Address) == Get(g, Address);
    assert Get(f, Specialization) == Get(g, Specialization);
  }

  /** Writing back what a field already holds changes nothing; writing a field twice keeps the last value. */
  lemma SetFieldLaws(f: Form, field: Field, a: string, b: string)
    ensures SetField(f, field, Get(f, field)) == f
    ensures SetField(SetField(f, field, a), field, b) == SetField(f, field, b)
  {
    FieldsDetermineForm(SetField(f, field, Get(f, field)), f);
    FieldsDetermineForm(SetField(SetField(f, field, a), field, b), SetField(f, field, b));
  }

  const EmptyForm := Form("", "", "", "", "", "")

  /** `x || ''` on an optional vendor field. */
  function OrEmpty(o: Option<string>): (r: string)
    ensures Truthy(o) ==> r == o.value
    ensures !Truthy(o) ==> r == ""
  {
    if Truthy(o) then o.value else ""
  }

  /** The form `handleEdit(vendor)` fills in. */
  function EditForm(v: Vendor): (r: Form)
    ensures r.name == v.name && r.email == v.email
    ensures r.phone == (if v.phone.Some? then v.phone.value else "")
    ensures r.company == (if v.company.Some? then v.company.value else "")
    ensures r.address == (if v.address.Some? then v.address.value else "")
    ensures r.specialization == (if v.specialization.Some? then v.specialization.value else "")
  {
    Form(v.name, v.email, OrEmpty(v.phone), OrEmpty(v.company), OrEmpty(v.address), OrEmpty(v.specialization))
  }

  /** `!formData.name || !formData.email` fails: both required fields are non-empty. */
  predicate Submittable(f: Form) {
    f.name != "" && f.email != ""
  }

  /** A vendor being edited can be saved as it is, unless its stored name or email is empty; a cleared form cannot. */
  lemma SubmittableForms(v: Vendor)
    ensures Submittable(EditForm(v)) <==> v.name != "" && v.email != ""
    ensures !Submittable(EmptyForm)
  {
  }

  /** The requests the form sends. */
  datatype Request = UpdateVendor(id: VendorId, form: Form) | CreateVendor(form: Form)

  datatype Toast = NameAndEmailRequired | VendorUpdated | VendorCreated | SaveFailed

  class VendorPage {
    var form: Form
    /** `editingVendor`, of which only the id is used. */
    var editing: Option<VendorId>
    var showForm: bool
    var toasts: seq<Toast>
    /** How many times `fetchVendors` was called after mounting. */
    var reloads: nat

    constructor ()
      ensures form == EmptyForm && editing == None && !showForm && toasts == [] && reloads == 0
    {
      form := EmptyForm;
      editing := None;
      showForm := false;
      toasts := [];
      reloads := 0;
    }

    /** `handleInputChange(e)`. */
    method HandleInputChange(field: Field, value: string)
      modifies this
      ensures form == SetField(old(form), field, value)
      ensures editing == old(editing) && showForm == old(showForm) && toasts == old(toasts) && reloads == old(reloads)
    {
      form := SetField(form, field, value);
    }

    /** `handleEdit(vendor)`. */
    method HandleEdit(id: VendorId, v: Vendor)
      modifies this
      ensures form == EditForm(v) && editing == Some(id) && showForm
      ensures toasts == old(toasts) && reloads == old(reloads)
    {
      editing := Some(id);
      form := EditForm(v);
      showForm := true;
    }

    /** `resetForm()`. */
    method ResetForm()
      modifies this
      ensures form == EmptyForm && editing == None && !showForm
      ensures toasts == old(toasts) && reloads == old(reloads)
    {
      form := EmptyForm;
      editing := None;
      showForm := false;
    }

    /**
     * `handleSubmit(e)`: no request unless name and email are both filled;
     * otherwise an update of the vendor being edited or a create, and on
     * success the form is reset and the list reloaded. A failed request
     * leaves the form as it was.
     */
    method HandleSubmit(accepted: bool) returns (request: Option<Request>)
      modifies this
      ensures !Submittable(old(form)) ==>
        && request == None && toasts == old(toasts) + [NameAndEmailRequired]
        && form == old(form) && editing == old(editing) && showForm == old(showForm) && reloads == old(reloads)
      ensures Submittable(old(form)) ==>
        request == Some(if old(editing).Some? then UpdateVendor(old(editing).value, old(form)) else CreateVendor(old(form)))
      ensures Submittable(old(form)) && accepted ==>
        && form == EmptyForm && editing == None && !showForm && reloads == old(reloads) + 1
        && toasts == old(toasts) + [if old(editing).Some? then VendorUpdated else VendorCreated]
      ensures Submittable(old(form)) && !accepted ==>
        && form == old(form) && editing == old(editing) && showForm == old(showForm)
        && reloads == old(reloads) && toasts == old(toasts) + [SaveFailed]
    {
      if form.name == "" || form.email == "" {
        toasts := toasts + [NameAndEmailRequired];
        return None;
      }
      if editing.Some? {
        request := Some(UpdateVendor(editing.value, form));
      } else {
        request := Some(CreateVendor(form));
      }
      if accepted {
        toasts := toasts + [if editing.Some? then VendorUpdated else VendorCreated];
        ResetForm();
        reloads := reloads + 1;
      } else {
        toasts := toasts + [SaveFailed];
      }
    }
  }
}
