/**
 * The recording controller (`CameraModel`): camera permission dispatch, capture
 * session setup, the record/stop toggle and the finish-recording delegate.
 * AVFoundation, FileManager and the clock are inputs: each call receives the
 * outcomes the framework would have produced.
 */
module Camera {
  import opened Foundation

  /** `AVCaptureDevice.authorizationStatus(for: .video)`; `UnknownFuture` stands for `@unknown default`. */
  datatype AuthorizationStatus = Authorized | NotDetermined | Denied | Restricted | UnknownFuture

  /** What the framework answers during setup, in the order setup asks. */
  datatype DeviceEnvironment = DeviceEnvironment(
    hasDefaultDevice: bool,  // AVCaptureDevice.default(for: .video) != nil
    inputCreated: bool,      // AVCaptureDeviceInput(device:) does not throw
    canAddInput: bool,       // captureSession.canAddInput(videoInput)
    canAddOutput: bool)      // captureSession.canAddOutput(videoOutput)

  /** A request sent to the movie file output. */
  datatype OutputRequest = StartRecording(destination: Url) | StopRecording

  /** `AVCaptureMovieFileOutput`, seen through the requests it has received, oldest first. */
  datatype MovieFileOutput = MovieFileOutput(requests: seq<OutputRequest>)

  /** `AVCaptureSession`: whether the input and the output were added and running was requested. */
  datatype CaptureSession = CaptureSession(hasInput: bool, hasOutput: bool, running: bool)

  const AccessDeniedMessage := "Camera access is denied. Please enable it in Settings."
  const DeviceSetupFailedMessage := "Failed to set up video capture device."
  const OutputSetupFailedMessage := "Failed to add video output."
  const OutputNotSetUpMessage := "Video output is not set up."
  const RemoveFailedPrefix := "Failed to remove existing file: "
  const RecordingErrorPrefix := "Error recording video: "

  const VideoPrefix := "video_"
  const VideoExtension := ".mov"

  /** The permission states in which setup runs (`granted` is the answer to `requestAccess`). */
  predicate SetupRuns(status: AuthorizationStatus, granted: bool)
  {
    status == Authorized || (status == NotDetermined && granted)
  }

  /** The `guard` of setup: a default device, an input built from it, and the session accepts it. */
  predicate DeviceReady(env: DeviceEnvironment)
  {
    env.hasDefaultDevice && env.inputCreated && env.canAddInput
  }

  /** The message setup leaves behind, if any. */
  function SetupError(env: DeviceEnvironment): (r: Option<string>)
    ensures r == None <==> DeviceReady(env) && env.canAddOutput
    ensures r == Some(DeviceSetupFailedMessage) <==> !DeviceReady(env)
    ensures DeviceReady(env) && !env.canAddOutput ==> r == Some(OutputSetupFailedMessage)
  {
    if !DeviceReady(env) then Some(DeviceSetupFailedMessage)
    else if !env.canAddOutput then Some(OutputSetupFailedMessage)
    else None
  }

  /** The file name of a take started at `stamp` (a `yyyyMMdd_HHmmss` date string). */
  function VideoFileName(stamp: string): (name: string)
    ensures |name| == |stamp| + 10
    ensures name[..6] == VideoPrefix && name[6..|name| - 4] == stamp && name[|name| - 4..] == VideoExtension
  {
    VideoPrefix + stamp + VideoExtension
  }

  /** Recovers the date string from a take's file name; `None` for any other name. */
  function StampOf(name: string): (r: Option<string>)
    ensures r.Some? ==> VideoFileName(r.value) == name
  {
    if |name| >= 10 && name[..6] == VideoPrefix && name[|name| - 4..] == VideoExtension then
      var stamp := name[6..|name| - 4];
      assert name == name[..6] + stamp + name[|name| - 4..];
      Some(stamp)
    else None
  }

  lemma StampRoundTrip(stamp: string)
    ensures StampOf(VideoFileName(stamp)) == Some(stamp)
  {
  }

  /** Where a take started at `stamp` is written: the documents directory joined with its file name. */
  function Destination(documents: Url, stamp: string): (r: Url)
    ensures documents.absoluteString <= r.absoluteString
    ensures var name := VideoFileName(stamp); var k := |r.absoluteString| - |name|;
      0 < k && r.absoluteString[k..] == name && r.absoluteString[k - 1] == '/'
  {
    AppendingPathComponent(documents, VideoFileName(stamp))
  }

  /** The destination names its take: its last component is the take's file name and carries the stamp. */
  lemma DestinationNamesTake(documents: Url, stamp: string)
    requires '/' !in stamp
    ensures LastPathComponent(Destination(documents, stamp)) == VideoFileName(stamp)
    ensures StampOf(LastPathComponent(Destination(documents, stamp))) == Some(stamp)
  {
    var name := VideoFileName(stamp);
    assert name == "video_" + stamp + ".mov";
    assert '/' !in name by {
      forall i | 0 <= i < |name| ensures name[i] != '/' {
        if 6 <= i < 6 + |stamp| {
          assert name[i] == stamp[i - 6];
        }
      }
    }
    LastComponentOfAppended(documents, name);
    StampRoundTrip(stamp);
  }

  /** Two takes get the same destination only when they were started with the same date string. */
  lemma DestinationInjective(documents: Url, stamp1: string, stamp2: string)
    requires '/' !in stamp1 && '/' !in stamp2
    requires Destination(documents, stamp1) == Destination(documents, stamp2)
    ensures stamp1 == stamp2
  {
    DestinationNamesTake(documents, stamp1);
    DestinationNamesTake(documents, stamp2);
  }

  /** Requests alternate, starting with a start: start, stop, start, stop, ... */
  predicate Alternating(requests: seq<OutputRequest>)
  {
    forall i :: 0 <= i < |requests| ==> (requests[i].StartRecording? <==> i % 2 == 0)
  }

  class CameraModel {
    var isRecording: bool
    var videoURL: Option<Url>
    var errorMessage: Option<string>
    var captureSession: Option<CaptureSession>
    var videoOutput: Option<MovieFileOutput>

    /**
     * The flag is on only while an output exists and its last request was a
     * start; requests to the output alternate; an output exists only in a
     * session that accepted the device input; the session is running only
     * when both the input and the output were added.
     */
    ghost predicate Valid()
      reads this
    {
      (videoOutput == None ==> !isRecording) &&
      (videoOutput.Some? ==>
         Alternating(videoOutput.value.requests) &&
         (isRecording <==> |videoOutput.value.requests| % 2 == 1) &&
         captureSession.Some? && captureSession.value.hasInput) &&
      (captureSession.Some? && captureSession.value.running ==>
         captureSession.value.hasInput && captureSession.value.hasOutput && videoOutput.Some?)
    }

    /** The state setup leaves when it started from `priorError` with no output. */
    ghost predicate ConfiguredBy(env: DeviceEnvironment, priorError: Option<string>)
      reads this
    {
      var ready := DeviceReady(env);
      captureSession == Some(CaptureSession(ready, ready && env.canAddOutput, ready && env.canAddOutput)) &&
      videoOutput == (if ready then Some(MovieFileOutput([])) else None) &&
      errorMessage == (if SetupError(env).Some? then SetupError(env) else priorError)
    }

    /** `init()`: the observable fields start empty, then permissions are checked. */
    constructor (status: AuthorizationStatus, granted: bool, env: DeviceEnvironment)
      ensures Valid()
      ensures !isRecording && videoURL == None
      ensures SetupRuns(status, granted) ==> ConfiguredBy(env, None)
      ensures (status == Denied || status == Restricted) ==>
        errorMessage == Some(AccessDeniedMessage) && captureSession == None && videoOutput == None
      ensures !SetupRuns(status, granted) && status != Denied && status != Restricted ==>
        errorMessage == None && captureSession == None && videoOutput == None
    {
      isRecording := false;
      videoURL := None;
      errorMessage := None;
      captureSession := None;
      videoOutput := None;
      new;
      CheckPermissions(status, granted, env);
    }

    /**
     * `checkPermissions()`: authorized runs setup; not-determined runs it when
     * access is granted; denied and restricted only record a message; any other
     * status does nothing.
     */
    method CheckPermissions(status: AuthorizationStatus, granted: bool, env: DeviceEnvironment)
      requires Valid() && videoOutput == None
      modifies this
      ensures Valid()
      ensures isRecording == old(isRecording) && videoURL == old(videoURL)
      ensures SetupRuns(status, granted) ==> ConfiguredBy(env, old(errorMessage))
      ensures (status == Denied || status == Restricted) ==>
        errorMessage == Some(AccessDeniedMessage) &&
        captureSession == old(captureSession) && videoOutput == old(videoOutput)
      ensures !SetupRuns(status, granted) && status != Denied && status != Restricted ==>
        errorMessage == old(errorMessage) &&
        captureSession == old(captureSession) && videoOutput == old(videoOutput)
    {
      match status
      case Authorized =>
        SetupCaptureSession(env);
      case NotDetermined =>
        if granted {
          SetupCaptureSession(env);
        }
      case Denied =>
        errorMessage := Some(AccessDeniedMessage);
      case Restricted =>
        errorMessage := Some(AccessDeniedMessage);
      case UnknownFuture =>
    }

    /**
     * `setupCaptureSession()`: a new session; on a missing device, a failing or a
     * rejected input, an error and no output; otherwise the input is added and a
     * new output assigned; a rejected output is an error (the output stays
     * assigned); only when both were added is the session started.
     */
    method SetupCaptureSession(env: DeviceEnvironment)
      requires Valid() && videoOutput == None
      modifies this
      ensures Valid()
      ensures isRecording == old(isRecording) && videoURL == old(videoURL)
      ensures ConfiguredBy(env, old(errorMessage))
      ensures captureSession.value.running <==> errorMessage == old(errorMessage) && SetupError(env) == None
    {
      captureSession := Some(CaptureSession(false, false, false));
      if !(env.hasDefaultDevice && env.inputCreated && env.canAddInput) {
        errorMessage := Some(DeviceSetupFailedMessage);
        return;
      }
      captureSession := Some(captureSession.value.(hasInput := true));
      videoOutput := Some(MovieFileOutput([]));
      if env.canAddOutput {
        captureSession := Some(captureSession.value.(hasOutput := true));
      } else {
        errorMessage := Some(OutputSetupFailedMessage);
        return;
      }
      captureSession := Some(captureSession.value.(running := true));
    }

    /**
     * `captureVideo()`. `documents` is the documents directory, `stamp` the
     * formatted current date, `files` the files that exist, `removeFailure` the
     * description of the error `removeItem` throws, if it throws. Returns the
     * files that exist afterwards.
     */
    method CaptureVideo(documents: Url, stamp: string, files: set<Url>, removeFailure: Option<string>)
      returns (filesAfter: set<Url>)
      requires Valid()
      modifies this
      ensures Valid()
      ensures videoURL == old(videoURL) && captureSession == old(captureSession)
      // no output: an error, and nothing else changes
      ensures old(videoOutput) == None ==>
        errorMessage == Some(OutputNotSetUpMessage) && isRecording == old(isRecording) &&
        videoOutput == None && filesAfter == files
      // recording: the output is asked to stop and the flag goes off; no path is computed
      ensures old(videoOutput).Some? && old(isRecording) ==>
        videoOutput == Some(MovieFileOutput(old(videoOutput).value.requests + [StopRecording])) &&
        !isRecording && errorMessage == old(errorMessage) && filesAfter == files
      // not recording, an existing file at the destination that cannot be removed: an error and no start
      ensures old(videoOutput).Some? && !old(isRecording) &&
              Destination(documents, stamp) in files && removeFailure.Some? ==>
        errorMessage == Some(RemoveFailedPrefix + removeFailure.value) &&
        videoOutput == old(videoOutput) && !isRecording && filesAfter == files
      // not recording otherwise: any old file is gone, the output starts writing there, the flag goes on
      ensures old(videoOutput).Some? && !old(isRecording) &&
              !(Destination(documents, stamp) in files && removeFailure.Some?) ==>
        videoOutput == Some(MovieFileOutput(old(videoOutput).value.requests + [StartRecording(Destination(documents, stamp))])) &&
        isRecording && errorMessage == old(errorMessage) &&
        filesAfter == files - {Destination(documents, stamp)}
      // the flag flips exactly when the output received a request
      ensures isRecording != old(isRecording) <==> videoOutput != old(videoOutput)
    {
      filesAfter := files;
      if videoOutput == None {
        errorMessage := Some(OutputNotSetUpMessage);
        return;
      }
      var output := videoOutput.value;
      if isRecording {
        output := MovieFileOutput(output.requests + [StopRecording]);
        videoOutput := Some(output);
      } else {
        var fileUrl := AppendingPathComponent(documents, VideoPrefix + stamp + VideoExtension);
        if fileUrl in filesAfter {
          if removeFailure.Some? {
            errorMessage := Some(RemoveFailedPrefix + removeFailure.value);
            return;
          }
          filesAfter := filesAfter - {fileUrl};
        }
        output := MovieFileOutput(output.requests + [StartRecording(fileUrl)]);
        videoOutput := Some(output);
      }
      isRecording := !isRecording;
    }

    /**
     * `fileOutput(_:didFinishRecordingTo:from:error:)`: an error is reported and
     * the last clip kept; otherwise the finished file becomes the clip. The flag
     * is never touched.
     */
    method FileOutputDidFinishRecording(outputFileURL: Url, error: Option<string>)
      requires Valid()
      modifies this`videoURL, this`errorMessage
      ensures Valid()
      ensures isRecording == old(isRecording)
      ensures error.Some? ==>
        errorMessage == Some(RecordingErrorPrefix + error.value) && videoURL == old(videoURL)
      ensures error == None ==>
        videoURL == Some(outputFileURL) && errorMessage == old(errorMessage)
    {
      if error.Some? {
        errorMessage := Some(RecordingErrorPrefix + error.value);
      } else {
        videoURL := Some(outputFileURL);
      }
    }
  }
}
