/** The `/preview` and `/convert` handlers (Server.js lines 163-182 and
    333-579). Every external program (the title lookup, the downloader, the
    audio extractor, the probes, the enhancer and the encoder) is an oracle:
    it succeeds or fails, and it may or may not leave its output file behind.
    The downloads folder is a `Disk`; the clock reading of line 357 is a
    parameter. */
module Convert {
  import opened Base
  import opened YouTubeUrl
  import opened Title
  import opened OutputPaths
  import opened Filters
  import opened FileSystem

  // ---------------------------------------------------------------------
  // /preview
  // ---------------------------------------------------------------------

  datatype PreviewReply =
    | PreviewId(videoId: string) // 200 { videoId }
    | PreviewMissingUrl          // 400 "Missing or invalid URL"
    | PreviewBadFormat           // 400 "Invalid YouTube URL format"

  /** Lines 163-182; `url` is absent when the body's `url` is missing or not a string. */
  function Preview(url: Option<string>): PreviewReply {
    if !Truthy(url) then PreviewMissingUrl
    else match ExtractVideoId(url.value)
      case None => PreviewBadFormat
      case Some(id) => PreviewId(id)
  }

  /** A preview answers with an identifier exactly when the link holds a match
      of the identifier pattern, and the identifier is that of the leftmost
      match: 11 characters of `[0-9A-Za-z_-]`. */
  lemma PreviewSpec(url: Option<string>)
    ensures Preview(url) == PreviewMissingUrl <==> !Truthy(url)
    ensures Preview(url) == PreviewBadFormat <==> Truthy(url) && forall i: nat :: !MatchesAt(url.value, i)
    ensures Preview(url).PreviewId? ==>
              && |Preview(url).videoId| == IdLength
              && (forall k :: 0 <= k < IdLength ==> IsIdChar(Preview(url).videoId[k]))
              && exists i: nat :: MatchesAt(url.value, i) && (forall j: nat :: j < i ==> !MatchesAt(url.value, j))
                                 && Preview(url).videoId == MatchedId(url.value, i)
  {
    if Truthy(url) {
      ExtractVideoIdSpec(url.value);
      var r := LeftmostMatch(url.value, 0);
      if r.Some? {
        assert forall j: nat :: j < r.value ==> !MatchesAt(url.value, j);
      }
    }
  }

  // ---------------------------------------------------------------------
  // /convert: the request and its admission
  // ---------------------------------------------------------------------

  /** The fields of the request body the handler reads. `url` is absent when
      missing or not a string; `format` is absent only when missing, and a
      format that is not a string lies outside the model; `includeVideo` is
      `includeVideo === true`; `reverb` and `widening` are the truthiness of
      the `enhanceOptions` fields. */
  datatype ConvertRequest = ConvertRequest(url: Option<string>, format: Option<string>,
                                           includeVideo: bool, reverb: bool, widening: bool)

  /** Where the `try` block gave up; each is a thrown error. */
  datatype Stage =
    | DownloadFailed      // the downloader exited with an error (line 408 or 436)
    | NoTempVideo         // line 414
    | ExtractFailed       // line 421
    | NoTempAudio         // line 444
    | SourceProbeFailed   // lines 449-461
    | NoEncodeCommand     // line 514 with `ffmpegCmd` undefined
    | EnhanceFailed       // line 492
    | EncodeFailed        // line 514
    | NoOutput            // line 521
    | OutputProbeFailed   // lines 526-527

  datatype ConvertReply =
    | Saved(filePath: string, message: string) // 200 { filePath, message }
    | MissingUrl                               // 400 "Missing or invalid URL"
    | MissingFormat                            // 400 "Missing format parameter"
    | NotYouTube(receivedUrl: string)          // 400 "Invalid YouTube or YouTube Music URL"
    | NoVideoId                                // 400 "Invalid YouTube URL format"
    | ConversionFailed(stage: Stage)           // 400 "Conversion failed"

  function Status(reply: ConvertReply): int {
    if reply.Saved? then 200 else 400
  }

  /** The checks of lines 340-365, in order. */
  datatype Admission = Refused(reply: ConvertReply) | Admitted(format: string, videoId: string)

  function Admit(req: ConvertRequest): Admission {
    if !Truthy(req.url) then Refused(MissingUrl)
    else if !Truthy(req.format) then Refused(MissingFormat)
    else if !IsAccepted(req.url.value) then Refused(NotYouTube(req.url.value))
    else match ExtractVideoId(req.url.value)
      case None => Refused(NoVideoId)
      case Some(id) => Admitted(req.format.value, id)
  }

  /** A request is refused exactly when the link is missing, the format is
      missing, the link is not a YouTube link or it holds no identifier, in
      that order of precedence; an admitted request carries the identifier
      a preview of the same link shows. */
  lemma AdmitSpec(req: ConvertRequest)
    ensures Admit(req) == Refused(MissingUrl) <==> !Truthy(req.url)
    ensures Admit(req) == Refused(MissingFormat) <==> Truthy(req.url) && !Truthy(req.format)
    ensures Admit(req).Refused? && Admit(req).reply.NotYouTube? <==>
              Truthy(req.url) && Truthy(req.format) && !(exists u :: Render(u) == req.url.value && ValidRest(u.rest))
    ensures Admit(req).Refused? && Admit(req).reply.NotYouTube? ==> Admit(req).reply.receivedUrl == req.url.value
    ensures Admit(req) == Refused(NoVideoId) <==>
              Truthy(req.url) && Truthy(req.format) && IsAccepted(req.url.value) && Preview(req.url) == PreviewBadFormat
    ensures Admit(req).Admitted? <==>
              Truthy(req.url) && Truthy(req.format) && IsAccepted(req.url.value) && Preview(req.url).PreviewId?
    ensures Admit(req).Admitted? ==>
              Admit(req).format == req.format.value && Preview(req.url) == PreviewId(Admit(req).videoId)
  {
    if Truthy(req.url) {
      AcceptedIff(req.url.value);
    }
  }

  /** An accepted link need not hold an identifier: `https://youtu.be/abc`
      passes the host pattern and is still refused. */
  lemma AcceptedWithoutId()
    ensures Admit(ConvertRequest(Some(ShortLink), Some("mp3"), false, false, false)) == Refused(NoVideoId)
  {
    ShortLinkAccepted();
    ShortLinkHasNoId();
  }

  /** `https://youtu.be/abc` */
  const ShortLink: string := Render(UrlShape(true, false, YouTuBe, "abc"))

  lemma ShortLinkAccepted()
    ensures IsAccepted(ShortLink)
  {
    ParseRender(UrlShape(true, false, YouTuBe, "abc"));
  }

  lemma ShortLinkHasNoId()
    ensures ExtractVideoId(ShortLink).None?
  {
    var s := ShortLink;
    var host := "youtu.be" + ("/" + "abc");
    assert s == "https://" + host;
    assert |s| == 20;
    assert s[5] == ':' && s[13] == '.' by {
      assert s[5] == "https://"[5];
      assert s[13] == host[5];
    }
    forall i: nat
      ensures !MatchesAt(s, i)
    {
      assert !IsIdChar(s[5]) && !IsIdChar(s[13]);
    }
    ExtractVideoIdSpec(s);
  }

  // ---------------------------------------------------------------------
  // /convert: the job
  // ---------------------------------------------------------------------

  /** What the handler has settled when the `try` block starts: the title,
      the format, how many output candidates already existed, and the options. */
  datatype Job = Job(title: string, format: string, duplicates: nat,
                     includeVideo: bool, reverb: bool, widening: bool)

  /** The files a job works with: `tempOutput`, `tempVideoOutput`,
      `enhancedAudioOutput` and `finalOutput`. */
  datatype WorkPaths = WorkPaths(temp: string, tempVideo: string, enhanced: string, final: string)

  function PathsOf(job: Job): WorkPaths {
    WorkPaths(InDownloads(TempAudioName(job.title)), InDownloads(TempVideoName(job.title)),
              InDownloads(EnhancedAudioName(job.title)), OutputPath(job.title, job.format, job.duplicates))
  }

  predicate Distinct(w: WorkPaths) {
    && w.temp != w.tempVideo && w.temp != w.enhanced && w.temp != w.final
    && w.tempVideo != w.enhanced && w.tempVideo != w.final && w.enhanced != w.final
  }

  function JobEncoder(job: Job): Option<Encoder> {
    SelectEncoder(job.format, job.includeVideo)
  }

  /** The four paths of every job are pairwise different. */
  lemma JobPathsDistinct(job: Job)
    ensures Distinct(PathsOf(job))
  {
    var t := job.title;
    var o := OutputName(t, job.format, job.duplicates);
    WorkNamesDistinct(t, job.format, job.duplicates);
    var w := PathsOf(job);
    if w.temp == w.tempVideo { InDownloadsInjective(TempAudioName(t), TempVideoName(t)); }
    if w.temp == w.enhanced { InDownloadsInjective(TempAudioName(t), EnhancedAudioName(t)); }
    if w.tempVideo == w.enhanced { InDownloadsInjective(TempVideoName(t), EnhancedAudioName(t)); }
    if w.final == w.temp { InDownloadsInjective(o, TempAudioName(t)); }
    if w.final == w.tempVideo { InDownloadsInjective(o, TempVideoName(t)); }
    if w.final == w.enhanced { InDownloadsInjective(o, EnhancedAudioName(t)); }
  }

  // ---------------------------------------------------------------------
  // /convert: the external programs
  // ---------------------------------------------------------------------

  /** One run of an external program: whether it exited successfully, and
      whether its output file exists afterwards because it wrote it. */
  datatype Step = Step(succeeded: bool, createsOutput: bool)

  /** The source probe: failed (or printed something unusable), or gave a
      stream with or without a spectrum. */
  datatype SourceProbe = ProbeFailed | Probed(spectrum: Option<seq<SpectrumEntry>>)

  /** How each program behaves in one conversion. `titleLookup` is the text
      the title lookup printed, absent when it failed. */
  datatype Programs = Programs(titleLookup: Option<string>, download: Step, extract: Step,
                               sourceProbe: SourceProbe, enhance: Step, encode: Step,
                               outputProbe: bool)

  /** The folder after a program that may write `path`. */
  function AfterStep(files: set<string>, path: string, step: Step): set<string> {
    if step.createsOutput then files + {path} else files
  }

  /** Whether the source probe reports hum or hiss (lines 458-462). */
  predicate NoiseDetected(probe: SourceProbe)
    requires probe.Probed?
  {
    probe.spectrum.Some? && (AnyHum(probe.spectrum.value) || AnyHiss(probe.spectrum.value))
  }

  /** The chain a job's audio is processed with once its encoder is known:
      by the encode itself, or for an mp4 with video by the enhancement. */
  function ChainOf(job: Job, e: Encoder, probe: SourceProbe): Chain
    requires probe.Probed?
  {
    Chain(FilterSetOf(e), NoiseDetected(probe), job.reverb || job.widening)
  }

  // ---------------------------------------------------------------------
  // /convert: the pipeline as a function of the folder
  // ---------------------------------------------------------------------

  /** The state the `try` block ends in: the folder, the error it threw (if
      any), whether `enhancedAudioOutput` was assigned, and the filter chain
      chosen for the audio (once an encoder was selected). */
  datatype Attempt = Attempt(files: set<string>, failure: Option<Stage>, enhancedSet: bool, chain: Option<Chain>)

  /** Lines 396-446: obtain the temporary audio, through the video when it is asked for. */
  function Acquire(files: set<string>, w: WorkPaths, includeVideo: bool, p: Programs): (set<string>, Option<Stage>) {
    if includeVideo then
      var f1 := AfterStep(files, w.tempVideo, p.download);
      if !p.download.succeeded then (f1, Some(DownloadFailed))
      else if w.tempVideo !in f1 then (f1, Some(NoTempVideo))
      else
        var f2 := AfterStep(f1, w.temp, p.extract);
        if !p.extract.succeeded then (f2, Some(ExtractFailed))
        else if w.temp !in f2 then (f2, Some(NoTempAudio))
        else (f2, None)
    else
      var f1 := AfterStep(files, w.temp, p.download);
      if !p.download.succeeded then (f1, Some(DownloadFailed))
      else if w.temp !in f1 then (f1, Some(NoTempAudio))
      else (f1, None)
  }

  /** Lines 479-532 once the encoder is known: the enhancement for an mp4 with
      video, the encode, the existence check and the output probe. */
  function Encode(files: set<string>, w: WorkPaths, p: Programs, e: Encoder, chain: Chain): Attempt {
    var enhanced := e == Mp4WithVideo;
    var f1 := if enhanced then AfterStep(files, w.enhanced, p.enhance) else files;
    if enhanced && !p.enhance.succeeded then Attempt(f1, Some(EnhanceFailed), true, Some(chain))
    else
      var f2 := AfterStep(f1, w.final, p.encode);
      if !p.encode.succeeded then Attempt(f2, Some(EncodeFailed), enhanced, Some(chain))
      else if w.final !in f2 then Attempt(f2, Some(NoOutput), enhanced, Some(chain))
      else if !p.outputProbe then Attempt(f2, Some(OutputProbeFailed), enhanced, Some(chain))
      else Attempt(f2, None, enhanced, Some(chain))
  }

  /** The `try` block up to the clean-up of line 534. */
  function TryBlock(files: set<string>, job: Job, w: WorkPaths, p: Programs): Attempt {
    var (f1, failure) := Acquire(files, w, job.includeVideo, p);
    if failure.Some? then Attempt(f1, failure, false, None)
    else if p.sourceProbe.ProbeFailed? then Attempt(f1, Some(SourceProbeFailed), false, None)
    else
      match JobEncoder(job)
      case None => Attempt(f1, Some(NoEncodeCommand), false, None)
      case Some(e) => Encode(f1, w, p, e, ChainOf(job, e, p.sourceProbe))
  }

  /** Lines 534-544. */
  function SuccessCleanup(files: set<string>, w: WorkPaths, enhancedSet: bool): set<string> {
    var f1 := files - {w.temp} - {w.tempVideo};
    if enhancedSet then f1 - {w.enhanced} else f1
  }

  /** Lines 556-572. */
  function FailureCleanup(files: set<string>, w: WorkPaths, enhancedSet: bool): set<string> {
    var f1 := files - {w.temp} - {w.tempVideo} - {w.final};
    if enhancedSet then f1 - {w.enhanced} else f1
  }

  /** `${format.toUpperCase()} saved using video title` */
  function SavedMessage(format: string): string {
    AsciiUpper(format) + " saved using video title"
  }

  /** What a conversion replies, what the folder holds afterwards, and which
      filter chain the audio was processed with. */
  function Run(files: set<string>, job: Job, w: WorkPaths, p: Programs): (ConvertReply, set<string>, Option<Chain>) {
    var a := TryBlock(files, job, w, p);
    if a.failure.None? then (Saved(w.final, SavedMessage(job.format)), SuccessCleanup(a.files, w, a.enhancedSet), a.chain)
    else (ConversionFailed(a.failure.value), FailureCleanup(a.files, w, a.enhancedSet), a.chain)
  }

  // ---------------------------------------------------------------------
  // /convert: what the pipeline guarantees
  // ---------------------------------------------------------------------

  /** The steps of the `try` block only ever add files: to the temporary files
      while acquiring, to the enhanced audio and the output while encoding. */
  lemma AcquireAddsWorkFiles(files: set<string>, w: WorkPaths, includeVideo: bool, p: Programs)
    ensures files <= Acquire(files, w, includeVideo, p).0
    ensures forall path :: path in Acquire(files, w, includeVideo, p).0 && path !in files ==>
              path == w.temp || (includeVideo && path == w.tempVideo)
    ensures Acquire(files, w, includeVideo, p).1.None? ==> w.temp in Acquire(files, w, includeVideo, p).0
  {
  }

  lemma EncodeAddsOutputs(files: set<string>, w: WorkPaths, p: Programs, e: Encoder, chain: Chain)
    ensures var a := Encode(files, w, p, e, chain);
      && files <= a.files
      && (forall path :: path in a.files && path !in files ==> path == w.final || (e == Mp4WithVideo && path == w.enhanced))
      && (a.failure.None? ==> w.final in a.files)
      && a.enhancedSet == (e == Mp4WithVideo)
      && a.chain == Some(chain)
  {
  }

  lemma TryBlockAddsWorkFiles(files: set<string>, job: Job, w: WorkPaths, p: Programs)
    ensures var a := TryBlock(files, job, w, p);
      && files <= a.files
      && (forall path :: path in a.files && path !in files ==>
            path == w.temp || path == w.tempVideo || path == w.final || (a.enhancedSet && path == w.enhanced))
      && (a.failure.None? ==> w.temp in a.files && w.final in a.files)
      && (a.enhancedSet ==> JobEncoder(job) == Some(Mp4WithVideo))
  {
    var (f1, failure) := Acquire(files, w, job.includeVideo, p);
    AcquireAddsWorkFiles(files, w, job.includeVideo, p);
    if failure.None? && p.sourceProbe.Probed? && JobEncoder(job).Some? {
      var e := JobEncoder(job).value;
      EncodeAddsOutputs(f1, w, p, e, ChainOf(job, e, p.sourceProbe));
    }
  }

  /** Only the job's four paths can change: every other file exists after the
      conversion exactly when it existed before, and the enhanced-audio path
      is left alone unless the job makes an mp4 with video. */
  lemma RunTouchesOnlyWorkFiles(files: set<string>, job: Job, w: WorkPaths, p: Programs, path: string)
    requires path != w.temp && path != w.tempVideo && path != w.final
    requires path != w.enhanced || JobEncoder(job) != Some(Mp4WithVideo)
    ensures path in Run(files, job, w, p).1 <==> path in files
  {
    TryBlockAddsWorkFiles(files, job, w, p);
  }

  /** After a successful conversion the output exists and no work file does;
      the reply names the output and the audio went through the chain of
      the selected encoder. */
  lemma RunSuccessCleansUp(files: set<string>, job: Job, w: WorkPaths, p: Programs)
    requires Distinct(w)
    requires Run(files, job, w, p).0.Saved?
    ensures Run(files, job, w, p).0 == Saved(w.final, SavedMessage(job.format))
    ensures w.final in Run(files, job, w, p).1
    ensures w.temp !in Run(files, job, w, p).1 && w.tempVideo !in Run(files, job, w, p).1
    ensures JobEncoder(job) == Some(Mp4WithVideo) ==> w.enhanced !in Run(files, job, w, p).1
    ensures p.sourceProbe.Probed? && JobEncoder(job).Some?
    ensures Run(files, job, w, p).2 == Some(ChainOf(job, JobEncoder(job).value, p.sourceProbe))
  {
    TryBlockAddsWorkFiles(files, job, w, p);
    var (f1, failure) := Acquire(files, w, job.includeVideo, p);
    var e := JobEncoder(job).value;
    EncodeAddsOutputs(f1, w, p, e, ChainOf(job, e, p.sourceProbe));
  }

  /** After a failed conversion neither the output nor a temporary file
      exists, and the enhanced audio is gone once it was assigned: for an mp4
      with video, from the enhancement step on. */
  lemma RunFailureCleansUp(files: set<string>, job: Job, w: WorkPaths, p: Programs)
    requires Run(files, job, w, p).0.ConversionFailed?
    ensures w.final !in Run(files, job, w, p).1
    ensures w.temp !in Run(files, job, w, p).1 && w.tempVideo !in Run(files, job, w, p).1
    ensures JobEncoder(job) == Some(Mp4WithVideo) && Run(files, job, w, p).0.stage in {EnhanceFailed, EncodeFailed, NoOutput, OutputProbeFailed} ==>
              w.enhanced !in Run(files, job, w, p).1
    ensures Run(files, job, w, p).0.stage in {DownloadFailed, NoTempVideo, ExtractFailed, NoTempAudio, SourceProbeFailed, NoEncodeCommand} ==>
              Run(files, job, w, p).2.None?
  {
    var (f1, failure) := Acquire(files, w, job.includeVideo, p);
    if failure.None? && p.sourceProbe.Probed? && JobEncoder(job).Some? {
      var e := JobEncoder(job).value;
      EncodeAddsOutputs(f1, w, p, e, ChainOf(job, e, p.sourceProbe));
    }
  }

  /** A conversion into a free output path succeeds exactly when every
      program succeeds, the temporary files are there when looked for
      (written now or left from an earlier conversion), the format has an
      encoder and the encoder writes the output. */
  lemma RunSucceedsIff(files: set<string>, job: Job, w: WorkPaths, p: Programs)
    requires Distinct(w) && w.final !in files
    ensures Run(files, job, w, p).0.Saved? <==>
              && p.download.succeeded
              && (job.includeVideo ==> (p.download.createsOutput || w.tempVideo in files) && p.extract.succeeded)
              && ((if job.includeVideo then p.extract.createsOutput else p.download.createsOutput) || w.temp in files)
              && p.sourceProbe.Probed?
              && JobEncoder(job).Some?
              && (JobEncoder(job) == Some(Mp4WithVideo) ==> p.enhance.succeeded)
              && p.encode.succeeded && p.encode.createsOutput
              && p.outputProbe
    ensures !p.download.succeeded ==> Run(files, job, w, p).0 == ConversionFailed(DownloadFailed)
    ensures JobEncoder(job).None? ==> Run(files, job, w, p).0.ConversionFailed?
  {
    var (f1, failure) := Acquire(files, w, job.includeVideo, p);
    AcquireAddsWorkFiles(files, w, job.includeVideo, p);
    assert w.final !in f1;
    if failure.None? && p.sourceProbe.Probed? && JobEncoder(job).Some? {
      var e := JobEncoder(job).value;
      EncodeAddsOutputs(f1, w, p, e, ChainOf(job, e, p.sourceProbe));
    }
  }

  // ---------------------------------------------------------------------
  // /convert: the handler
  // ---------------------------------------------------------------------

  /** Lines 396-446 on the folder. */
  method AcquireSource(disk: Disk, w: WorkPaths, includeVideo: bool, p: Programs) returns (failure: Option<Stage>)
    modifies disk
    ensures (disk.files, failure) == Acquire(old(disk.files), w, includeVideo, p)
  {
    if includeVideo {
      if p.download.createsOutput { disk.Create(w.tempVideo); }
      if !p.download.succeeded { return Some(DownloadFailed); }
      if !disk.Exists(w.tempVideo) { return Some(NoTempVideo); }
      if p.extract.createsOutput { disk.Create(w.temp); }
      if !p.extract.succeeded { return Some(ExtractFailed); }
    } else {
      if p.download.createsOutput { disk.Create(w.temp); }
      if !p.download.succeeded { return Some(DownloadFailed); }
    }
    if !disk.Exists(w.temp) { return Some(NoTempAudio); }
    return None;
  }

  /** Lines 479-532 on the folder, once the encoder is known. */
  method RunEncoder(disk: Disk, w: WorkPaths, p: Programs, e: Encoder, chain: Chain)
    returns (failure: Option<Stage>, enhancedSet: bool)
    modifies disk
    ensures var a := Encode(old(disk.files), w, p, e, chain);
      disk.files == a.files && failure == a.failure && enhancedSet == a.enhancedSet
  {
    enhancedSet := false;
    if e == Mp4WithVideo {
      enhancedSet := true;
      if p.enhance.createsOutput { disk.Create(w.enhanced); }
      if !p.enhance.succeeded { return Some(EnhanceFailed), enhancedSet; }
    }
    if p.encode.createsOutput { disk.Create(w.final); }
    if !p.encode.succeeded { return Some(EncodeFailed), enhancedSet; }
    if !disk.Exists(w.final) { return Some(NoOutput), enhancedSet; }
    if !p.outputProbe { return Some(OutputProbeFailed), enhancedSet; }
    return None, enhancedSet;
  }

  /** Lines 394-532: the `try` block up to its clean-up. */
  method TryConvert(disk: Disk, job: Job, w: WorkPaths, p: Programs)
    returns (failure: Option<Stage>, enhancedSet: bool, chain: Option<Chain>)
    modifies disk
    ensures Attempt(disk.files, failure, enhancedSet, chain) == TryBlock(old(disk.files), job, w, p)
  {
    enhancedSet, chain := false, None;
    failure := AcquireSource(disk, w, job.includeVideo, p);
    if failure.Some? { return; }
    if p.sourceProbe.ProbeFailed? { return Some(SourceProbeFailed), enhancedSet, chain; }
    var noiseFilter := ChooseNoiseFilter(p.sourceProbe.spectrum);
    var e := JobEncoder(job);
    if e.None? { return Some(NoEncodeCommand), enhancedSet, chain; }
    chain := Some(Chain(FilterSetOf(e.value), noiseFilter == NoiseReduction, job.reverb || job.widening));
    failure, enhancedSet := RunEncoder(disk, w, p, e.value, chain.value);
  }

  /** Lines 534-544; the temporary audio is known to exist here. */
  method CleanUpAfterSuccess(disk: Disk, w: WorkPaths, enhancedSet: bool)
    requires w.temp in disk.files
    modifies disk
    ensures disk.files == SuccessCleanup(old(disk.files), w, enhancedSet)
  {
    disk.Unlink(w.temp);
    if disk.Exists(w.tempVideo) { disk.Unlink(w.tempVideo); }
    if enhancedSet && disk.Exists(w.enhanced) { disk.Unlink(w.enhanced); }
  }

  /** Lines 556-572. */
  method CleanUpAfterFailure(disk: Disk, w: WorkPaths, enhancedSet: bool)
    modifies disk
    ensures disk.files == FailureCleanup(old(disk.files), w, enhancedSet)
  {
    if disk.Exists(w.temp) { disk.Unlink(w.temp); }
    if disk.Exists(w.tempVideo) { disk.Unlink(w.tempVideo); }
    if disk.Exists(w.final) { disk.Unlink(w.final); }
    if enhancedSet && disk.Exists(w.enhanced) { disk.Unlink(w.enhanced); }
  }

  /** The handler. A refused request changes nothing on disk; an admitted one
      names its files after the resolved title and the first free output
      candidate, and then ends as `Run` says. */
  method HandleConvert(disk: Disk, req: ConvertRequest, now: nat, p: Programs)
    returns (reply: ConvertReply, job: Option<Job>, chain: Option<Chain>)
    modifies disk
    ensures Admit(req).Refused? ==>
              reply == Admit(req).reply && job.None? && chain.None? && disk.files == old(disk.files)
    ensures Admit(req).Admitted? ==>
              && job.Some?
              && job.value == Job(ResolveTitle(p.titleLookup, now), Admit(req).format, job.value.duplicates,
                                  req.includeVideo, req.reverb, req.widening)
              && IsFirstFree(old(disk.files), job.value.title, job.value.format, job.value.duplicates)
              && (reply, disk.files, chain) == Run(old(disk.files), job.value, PathsOf(job.value), p)
  {
    var admission := Admit(req);
    if admission.Refused? {
      return admission.reply, None, None;
    }
    var title := ResolveTitle(p.titleLookup, now);
    var finalOutput, duplicates := AllocateOutput(disk, title, admission.format);
    var j := Job(title, admission.format, duplicates, req.includeVideo, req.reverb, req.widening);
    var w := PathsOf(j);
    job := Some(j);
    var failure, enhancedSet;
    failure, enhancedSet, chain := TryConvert(disk, j, w, p);
    if failure.None? {
      TryBlockAddsWorkFiles(old(disk.files), j, w, p);
      CleanUpAfterSuccess(disk, w, enhancedSet);
      reply := Saved(finalOutput, SavedMessage(j.format));
    } else {
      CleanUpAfterFailure(disk, w, enhancedSet);
      reply := ConversionFailed(failure.value);
    }
  }
}
