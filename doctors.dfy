/** The NGO doctors directory: an NGO adds a doctor, which the server assigns an id. */
module Doctors {
  import opened Wrappers
  import opened Json
  import opened Tracking
  import JsText
  import ApiClient

  datatype Form = Form(name: string, phone: string, specialty: string)
  datatype Doctor = Doctor(id: Json, name: string, phone: string, specialty: string)
  datatype SubmitOutcome = NotNgo | MissingFields | Failed | Added

  const EmptyForm := Form("", "", "")

  /** Only NGOs see the directory. */
  function Render(role: Role): (v: View)
    ensures v.Content? <==> role == RoleNgo
    ensures v.Warning? ==> v.text == "NGO only."
  {
    if role == RoleNgo then Content else Warning("NGO only.")
  }

  /**
   * Whether the add went through: a failed call, and a `null` reply (reading `res.id` from
   * it throws), both count as failure.
   */
  predicate Accepted(posted: Result<Json, ApiClient.ApiError>) {
    posted.Success? && posted.value != JNull
  }

  /** `res.id || Date.now().toString()` */
  function DoctorId(res: Json, now: int): (id: Json)
    ensures HasTruthy(res, "id") ==> id == res.fields["id"]
    ensures !HasTruthy(res, "id") ==> id == JStr(JsText.IntToString(now))
  {
    OrElse(Get(res, "id"), JStr(JsText.IntToString(now)))
  }

  class DoctorsScreen {
    var form: Form
    var list: seq<Doctor>

    /** Every listed doctor has a name and a phone. */
    predicate Valid()
      reads this
    {
      forall i :: 0 <= i < |list| ==> list[i].name != "" && list[i].phone != ""
    }

    constructor ()
      ensures Valid() && form == EmptyForm && list == []
    {
      form, list := EmptyForm, [];
    }

    /**
     * `submit`: nothing for a non-NGO; an alert and nothing sent without a name or phone;
     * on success the doctor goes first and the form is reset; on failure nothing changes.
     */
    method Submit(role: Role, posted: Result<Json, ApiClient.ApiError>, now: int) returns (outcome: SubmitOutcome)
      requires Valid()
      modifies this
      ensures Valid()
      ensures outcome == NotNgo <==> role != RoleNgo
      ensures outcome == MissingFields <==> role == RoleNgo && (old(form).name == "" || old(form).phone == "")
      ensures outcome == Added <==>
                role == RoleNgo && old(form).name != "" && old(form).phone != "" && Accepted(posted)
      ensures outcome == Added ==>
                && list == [Doctor(DoctorId(posted.value, now), old(form).name, old(form).phone, old(form).specialty)] + old(list)
                && form == EmptyForm
      ensures outcome != Added ==> unchanged(this)
    {
      if role != RoleNgo {
        return NotNgo;
      }
      if form.name == "" || form.phone == "" {
        return MissingFields;
      }
      if !Accepted(posted) {
        return Failed;
      }
      list := [Doctor(DoctorId(posted.value, now), form.name, form.phone, form.specialty)] + list;
      form := EmptyForm;
      outcome := Added;
    }
  }
}
