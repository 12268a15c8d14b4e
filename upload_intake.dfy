/** The browser side of an upload (`handleFileUpload` in static/script.js): the type check
    on the chosen file and the simulated progress bar, which advances on a timer and hands
    the file on to processing when it is full. */
module UploadIntake {
  import opened Wrappers
  import opened Notifications

  /** The chosen file as the browser describes it. */
  datatype FileHandle = FileHandle(name: string, mimeType: string)

  /** `validTypes`. */
  const ValidTypes: seq<string> := ["image/jpeg", "image/png", "application/pdf"]

  /** `validTypes.includes(fileType)`. */
  predicate IsValidType(t: string) {
    t in ValidTypes
  }

  /** One firing of the interval timer: the bar width it sets (in percent), the status
      text it sets, if any, and whether it stops the timer and starts processing. */
  datatype Tick = Tick(progress: nat, status: Option<string>, handsOff: bool)

  /** How `handleFileUpload` ends: nothing chosen, the type rejected with an error notification,
      or the file shown and the progress bar run to completion. */
  datatype Intake =
    | NoFile
    | Rejected(notice: Notification)
    | Started(shownName: string, ticks: seq<Tick>, processed: FileHandle)

  const ProgressStep: nat := 5

  /** The status text a tick sets once the bar reaches `progress`. */
  function StatusAt(progress: int): (s: Option<string>)
    ensures s.Some? <==> progress == 25 || progress == 50 || progress == 75
  {
    if progress == 25 then Some("Sending to Azure OCR...")
    else if progress == 50 then Some("Extracting text...")
    else if progress == 75 then Some("Processing with Azure AI...")
    else None
  }

  /** The tick that brings the bar to `progress`. */
  function TickAt(progress: nat): Tick {
    Tick(progress, StatusAt(progress), progress >= 100)
  }

  method HandleFileUpload(file: Option<FileHandle>) returns (r: Intake)
    ensures r.NoFile? <==> file.None?
    ensures r.Rejected? <==> file.Some? && !IsValidType(file.value.mimeType)
    ensures r.Rejected? ==> r == Rejected(Notification("Error", "Please upload a JPG, PNG, or PDF file.", false))
    ensures r.Started? ==>
      && r.shownName == file.value.name && r.processed == file.value
      && |r.ticks| == 20
      && forall k :: 0 <= k < 20 ==> r.ticks[k] == TickAt(ProgressStep * (k + 1))
  {
    if file.None? {
      return NoFile;
    }
    var f := file.value;
    if !IsValidType(f.mimeType) {
      return Rejected(Notification("Error", "Please upload a JPG, PNG, or PDF file.", false));
    }
    var progress: nat := 0;
    var ticks: seq<Tick> := [];
    var stopped := false;
    while !stopped
      invariant progress == ProgressStep * |ticks| && progress <= 100
      invariant stopped <==> progress >= 100
      invariant forall k :: 0 <= k < |ticks| ==> ticks[k] == TickAt(ProgressStep * (k + 1))
      decreases 100 - progress
    {
      progress := progress + ProgressStep;
      var status := None;
      if progress == 25 {
        status := Some("Sending to Azure OCR...");
      } else if progress == 50 {
        status := Some("Extracting text...");
      } else if progress == 75 {
        status := Some("Processing with Azure AI...");
      }
      var handsOff := false;
      if progress >= 100 {
        handsOff := true;
        stopped := true;
      }
      ticks := ticks + [Tick(progress, status, handsOff)];
    }
    return Started(f.name, ticks, f);
  }

  /** Over the run of the bar each status text is set exactly once, at 25, 50 and 75
      percent, and processing starts exactly once, on the last tick, when the bar is full. */
  lemma ProgressSchedule(k: nat)
    requires k < 20
    ensures TickAt(ProgressStep * (k + 1)).status.Some? <==> k == 4 || k == 9 || k == 14
    ensures TickAt(ProgressStep * (k + 1)).handsOff <==> k == 19
    ensures k == 19 ==> TickAt(ProgressStep * (k + 1)).progress == 100
  {
  }

  /** Which files pass the check. */
  lemma TypeCheckExamples()
    ensures IsValidType("image/png") && IsValidType("image/jpeg") && IsValidType("application/pdf")
    ensures !IsValidType("image/jpg") && !IsValidType("image/gif") && !IsValidType("")
  {
  }
}
