// The regional admin's documentation reports screen
// (src/components/regional-dashboard/LaporanDokumentasi.tsx): the list of
// reports, starting from the screen's built-in sample, and the upload form that
// puts a new pending report at its head. The new report's id (the clock in
// milliseconds) and its date text are taken as given; the chosen files are
// represented by how many there are.

module LaporanDokumentasi {
  import opened Wrappers
  import Seqs

  datatype Jenis = Foto | Dokumen

  datatype ReportStatus = Pending | Approved

  datatype LaporanItem = LaporanItem(id: string, judul: string, jenis: Jenis, eventTerkait: string,
                                     tanggal: string, status: ReportStatus, fileCount: nat)

  /** The upload form; `files` is the number of files of the chosen file list, `None` before
      any was chosen. */
  datatype UploadForm = UploadForm(judul: string, jenis: Jenis, eventTerkait: string, deskripsi: string,
                                   files: Option<nat>)

  const BlankForm: UploadForm := UploadForm("", Foto, "", "", None)

  /** The reports the screen starts with. */
  const SampleReports: seq<LaporanItem> := [
    LaporanItem("1", "Dokumentasi Kopdar Akbar Malang", Foto, "Kopdar Akbar Malang", "15 Des 2024", Approved, 24),
    LaporanItem("2", "Laporan Kegiatan Workshop Jurnalistik", Dokumen, "Workshop Jurnalistik", "10 Des 2024", Pending, 1),
    LaporanItem("3", "Foto Pelatihan Media Sosial", Foto, "Pelatihan Media Sosial", "05 Des 2024", Approved, 18)
  ]

  /** The events a report can be linked to. */
  const EventList: seq<string> := ["Kopdar Akbar Malang", "Workshop Jurnalistik", "Pelatihan Media Sosial",
                                   "Seminar Konten Islami"]

  /** `files?.length || 0` */
  function FileCount(files: Option<nat>): (n: nat)
    ensures files.None? ==> n == 0
    ensures files.Some? ==> n == files.value
  {
    if files.Some? then files.value else 0
  }

  /** The report a submitted form becomes: pending, with the form's title, kind and event
      and as many files as were chosen. */
  function NewReport(form: UploadForm, id: string, tanggal: string): (item: LaporanItem)
    ensures item.status == Pending && item.id == id && item.tanggal == tanggal
    ensures item.judul == form.judul && item.jenis == form.jenis && item.eventTerkait == form.eventTerkait
    ensures item.fileCount == FileCount(form.files)
  {
    LaporanItem(id, form.judul, form.jenis, form.eventTerkait, tanggal, Pending, FileCount(form.files))
  }

  /** A form that can be submitted: a title and an event. */
  predicate Complete(form: UploadForm)
  {
    form.judul != "" && form.eventTerkait != ""
  }

  predicate IsPending(item: LaporanItem)
  {
    item.status == Pending
  }

  /** The screen's report list after an upload holds one more pending report and as many
      approved ones as before. */
  lemma {:induction false} UploadAddsOnePending(reports: seq<LaporanItem>, form: UploadForm, id: string, tanggal: string)
    ensures Seqs.CountIf([NewReport(form, id, tanggal)] + reports, IsPending) == Seqs.CountIf(reports, IsPending) + 1
    ensures Seqs.CountIf([NewReport(form, id, tanggal)] + reports, (r: LaporanItem) => r.status == Approved) ==
              Seqs.CountIf(reports, (r: LaporanItem) => r.status == Approved)
  {
    var item := NewReport(form, id, tanggal);
    Seqs.CountConcat([item], reports, IsPending);
    Seqs.CountConcat([item], reports, (r: LaporanItem) => r.status == Approved);
    assert [item][..0] == [];
  }

  datatype SubmitOutcome = Incomplete | Uploaded

  class ReportsPage {
    var laporan: seq<LaporanItem>
    var showUploadForm: bool
    var uploadForm: UploadForm

    constructor()
      ensures laporan == SampleReports && !showUploadForm && uploadForm == BlankForm
    {
      laporan := SampleReports;
      showUploadForm := false;
      uploadForm := BlankForm;
    }

    /** The "Upload Laporan" button shows or hides the form; its contents are kept. */
    method ToggleUploadForm()
      modifies this
      ensures showUploadForm == !old(showUploadForm)
      ensures laporan == old(laporan) && uploadForm == old(uploadForm)
    {
      showUploadForm := !showUploadForm;
    }

    /** The form's cancel button hides it and keeps what was typed. */
    method CancelUploadForm()
      modifies this
      ensures !showUploadForm
      ensures laporan == old(laporan) && uploadForm == old(uploadForm)
    {
      showUploadForm := false;
    }

    method EditJudul(judul: string)
      modifies this
      ensures uploadForm == old(uploadForm).(judul := judul)
      ensures laporan == old(laporan) && showUploadForm == old(showUploadForm)
    {
      uploadForm := uploadForm.(judul := judul);
    }

    method EditJenis(jenis: Jenis)
      modifies this
      ensures uploadForm == old(uploadForm).(jenis := jenis)
      ensures laporan == old(laporan) && showUploadForm == old(showUploadForm)
    {
      uploadForm := uploadForm.(jenis := jenis);
    }

    method EditEventTerkait(eventTerkait: string)
      modifies this
      ensures uploadForm == old(uploadForm).(eventTerkait := eventTerkait)
      ensures laporan == old(laporan) && showUploadForm == old(showUploadForm)
    {
      uploadForm := uploadForm.(eventTerkait := eventTerkait);
    }

    method EditDeskripsi(deskripsi: string)
      modifies this
      ensures uploadForm == old(uploadForm).(deskripsi := deskripsi)
      ensures laporan == old(laporan) && showUploadForm == old(showUploadForm)
    {
      uploadForm := uploadForm.(deskripsi := deskripsi);
    }

    /** `handleFileChange`: a chosen file list (given by its number of files) replaces the previous one;
        no file list leaves the form as it was. */
    method HandleFileChange(chosen: Option<nat>)
      modifies this
      ensures chosen.Some? ==> uploadForm == old(uploadForm).(files := chosen)
      ensures chosen.None? ==> uploadForm == old(uploadForm)
      ensures laporan == old(laporan) && showUploadForm == old(showUploadForm)
    {
      if chosen.Some? {
        uploadForm := uploadForm.(files := chosen);
      }
    }

    /** `handleSubmit()`, with the new report's id and date text: an incomplete form changes
        nothing; otherwise the new report is put in front of the others, which keep their
        order, and the form is emptied and hidden. */
    method HandleSubmit(id: string, tanggal: string) returns (outcome: SubmitOutcome)
      modifies this
      ensures outcome == Uploaded <==> Complete(old(uploadForm))
      ensures outcome == Incomplete ==>
                laporan == old(laporan) && uploadForm == old(uploadForm) && showUploadForm == old(showUploadForm)
      ensures outcome == Uploaded ==>
                laporan == [NewReport(old(uploadForm), id, tanggal)] + old(laporan) &&
                uploadForm == BlankForm && !showUploadForm
      ensures outcome == Uploaded ==> |laporan| == |old(laporan)| + 1 && laporan[1..] == old(laporan)
    {
      if !Complete(uploadForm) {
        return Incomplete;
      }
      laporan := [NewReport(uploadForm, id, tanggal)] + laporan;
      uploadForm := BlankForm;
      showUploadForm := false;
      return Uploaded;
    }
  }
}
