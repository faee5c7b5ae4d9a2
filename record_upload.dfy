/** The medical-record upload form: required fields, record construction, reset. */
module Upload {
  import opened Wrappers
  import opened Storage

  /** `s || undefined`: the empty string becomes absent. */
  function OptionalText(s: string): (r: Option<string>)
    ensures r.None? <==> s == ""
    ensures r.Some? ==> r.value == s
  {
    if s == "" then None else Some(s)
  }

  /** Reading an optional field back with `|| ""` gives the text that was entered. */
  lemma OptionalTextRoundTrip(s: string)
    ensures OptionalText(s).GetOr("") == s
  {
  }

  /** The field values a successful submit captured for its timer. */
  datatype UploadDraft = UploadDraft(kind: RecordType, title: string, doctor: string, date: string, details: string, fileName: string)

  /** `newRecord`, with the fresh `crypto.randomUUID()` passed in as `id`. */
  function BuildRecord(id: string, d: UploadDraft): (r: MedicalRecord)
    ensures r.id == id && r.kind == d.kind && r.title == d.title && r.date == d.date
    ensures r.fileName == Some(d.fileName)
    ensures r.doctor.None? <==> d.doctor == ""
    ensures r.doctor.Some? ==> r.doctor.value == d.doctor
    ensures r.details.None? <==> d.details == ""
    ensures r.details.Some? ==> r.details.value == d.details
  {
    MedicalRecord(id, d.kind, d.title, Some(d.fileName), d.date, OptionalText(d.doctor), OptionalText(d.details))
  }

  /** The form's seven state fields; the selected file is modelled by its name. */
  class RecordUploadForm {
    var recordType: RecordType
    var title: string
    var doctor: string
    var date: string
    var details: string
    var file: Option<string>
    var isSubmitting: bool
    var pending: Option<UploadDraft>

    ghost predicate Valid()
      reads this
    {
      isSubmitting <==> pending.Some?
    }

    constructor ()
      ensures Valid() && recordType == Prescription && !isSubmitting
      ensures title == "" && doctor == "" && date == "" && details == "" && file == None
    {
      recordType := Prescription;
      title, doctor, date, details := "", "", "", "";
      file := None;
      isSubmitting := false;
      pending := None;
    }

    /** `handleFileChange`: take the first chosen file, if any. */
    method HandleFileChange(chosen: seq<string>)
      modifies this`file
      ensures file == if |chosen| > 0 then Some(chosen[0]) else old(file)
    {
      if |chosen| > 0 {
        file := Some(chosen[0]);
      }
    }

    /** `handleSubmit`; the submit button is disabled while submitting. */
    method HandleSubmit() returns (rejected: bool)
      requires Valid() && !isSubmitting
      modifies this`isSubmitting, this`pending
      ensures Valid()
      ensures rejected <==> title == "" || date == "" || file.None?
      ensures rejected ==> !isSubmitting && pending == None
      ensures !rejected ==> pending == Some(UploadDraft(recordType, title, doctor, date, details, file.value))
    {
      isSubmitting := true;
      rejected := title == "" || date == "" || file.None?;
      if rejected {
        isSubmitting := false;
        return;
      }
      pending := Some(UploadDraft(recordType, title, doctor, date, details, file.value));
    }

    /** The upload timer fires: hand exactly one record to `onRecordAdded` and reset the form. */
    method CompleteUpload(id: string) returns (record: MedicalRecord)
      requires Valid() && pending.Some?
      modifies this
      ensures Valid() && !isSubmitting
      ensures record == BuildRecord(id, old(pending).value)
      ensures title == "" && doctor == "" && date == "" && details == "" && file == None
      ensures recordType == old(recordType)
    {
      record := BuildRecord(id, pending.value);
      title := "";
      doctor := "";
      date := "";
      details := "";
      file := None;
      isSubmitting := false;
      pending := None;
    }
  }
}
