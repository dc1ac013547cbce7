/** The files a conversion works with (Server.js lines 356 and 381-392,
    489): all in the downloads folder, all named after the title. The
    output is `<title>.<format>`, or `<title>_<n>.<format>` for the first
    n >= 1 whose file does not exist yet. */
module OutputPaths {
  import opened Base
  import opened FileSystem

  /** `path.resolve(os.homedir(), "Downloads")`, a fixed folder. */
  const DownloadsDir: string := "~/Downloads"

  /** `path.join(downloadsDir, name)` for a name without separators. */
  function InDownloads(name: string): string {
    DownloadsDir + "/" + name
  }

  /** The n-th output candidate: `${title}.${format}` for n = 0, then
      `${title}_${n}.${format}`. */
  function OutputName(title: string, format: string, n: nat): string {
    if n == 0 then title + ("." + format) else title + ("_" + (NatToString(n) + ("." + format)))
  }

  function OutputPath(title: string, format: string, n: nat): string {
    InDownloads(OutputName(title, format, n))
  }

  /** `${title}_temp.wav`, where the audio is downloaded or extracted to. */
  function TempAudioName(title: string): string {
    title + "_temp.wav"
  }

  /** `${title}_temp_video.mp4`, where the video is downloaded to. */
  function TempVideoName(title: string): string {
    title + "_temp_video.mp4"
  }

  /** `${title}_enhanced_audio.wav`, the filtered audio of an mp4 with video. */
  function EnhancedAudioName(title: string): string {
    title + "_enhanced_audio.wav"
  }

  lemma InDownloadsInjective(a: string, b: string)
    requires InDownloads(a) == InDownloads(b)
    ensures a == b
  {
    var p := DownloadsDir + "/";
    assert InDownloads(a) == p + a && InDownloads(b) == p + b;
    assert a == InDownloads(a)[|p|..];
  }

  /** A digit string followed by `.` is delimited by that `.`. */
  lemma DigitsThenDot(d1: string, f1: string, d2: string, f2: string)
    requires forall i :: 0 <= i < |d1| ==> IsDigit(d1[i])
    requires forall i :: 0 <= i < |d2| ==> IsDigit(d2[i])
    requires d1 + ("." + f1) == d2 + ("." + f2)
    ensures d1 == d2
  {
    var s := d1 + ("." + f1);
    assert s[|d1|] == '.';
    assert s == d2 + ("." + f2);
    assert s[|d2|] == '.';
    assert forall i :: 0 <= i < |d1| ==> s[i] == d1[i];
    assert forall i :: 0 <= i < |d2| ==> s[i] == d2[i];
    assert d1 == s[..|d1|];
    assert d2 == s[..|d2|];
  }

  /** Different counters give different candidates. */
  lemma OutputNameInjective(title: string, format: string, m: nat, n: nat)
    requires OutputName(title, format, m) == OutputName(title, format, n)
    ensures m == n
  {
    var s := OutputName(title, format, m);
    if m == 0 || n == 0 {
      assert s[|title|] == (if m == 0 then '.' else '_');
      assert s[|title|] == (if n == 0 then '.' else '_');
    } else {
      var p := title + "_";
      var t1 := NatToString(m) + ("." + format);
      var t2 := NatToString(n) + ("." + format);
      assert s == p + t1 && s == p + t2;
      assert t1 == s[|p|..] == t2;
      DigitsThenDot(NatToString(m), format, NatToString(n), format);
      NatToStringInjective(m, n);
    }
  }

  lemma OutputPathInjective(title: string, format: string, m: nat, n: nat)
    requires OutputPath(title, format, m) == OutputPath(title, format, n)
    ensures m == n
  {
    InDownloadsInjective(OutputName(title, format, m), OutputName(title, format, n));
    OutputNameInjective(title, format, m, n);
  }

  /** The work files and every output candidate of a title are pairwise
      different, whatever the title and the format. */
  lemma WorkNamesDistinct(title: string, format: string, n: nat)
    ensures TempAudioName(title) != TempVideoName(title)
    ensures TempAudioName(title) != EnhancedAudioName(title)
    ensures TempVideoName(title) != EnhancedAudioName(title)
    ensures OutputName(title, format, n) != TempAudioName(title)
    ensures OutputName(title, format, n) != TempVideoName(title)
    ensures OutputName(title, format, n) != EnhancedAudioName(title)
  {
    var k := |title|;
    var a, v, e, o := TempAudioName(title), TempVideoName(title), EnhancedAudioName(title), OutputName(title, format, n);
    assert a[k + 5] == '.' && v[k + 5] == '_';
    assert a[k + 1] == 't' && v[k + 1] == 't' && e[k + 1] == 'e';
    assert a[k] == '_' && v[k] == '_' && e[k] == '_';
    if n == 0 {
      assert o[k] == '.';
    } else {
      assert o[k + 1] == NatToString(n)[0];
    }
  }

  /** n is the first counter whose candidate does not exist. */
  predicate IsFirstFree(files: set<string>, title: string, format: string, n: nat) {
    && OutputPath(title, format, n) !in files
    && forall k :: 0 <= k < n ==> OutputPath(title, format, k) in files
  }

  /** At most one counter is the first free one. */
  lemma FirstFreeUnique(files: set<string>, title: string, format: string, m: nat, n: nat)
    requires IsFirstFree(files, title, format, m) && IsFirstFree(files, title, format, n)
    ensures m == n
  {
  }

  /** The first n candidates all existing takes at least n files: so for a
      finite folder some candidate is free. */
  lemma {:induction false} CandidatesFitIn(files: set<string>, title: string, format: string, n: nat)
    requires forall k :: 0 <= k < n ==> OutputPath(title, format, k) in files
    ensures n <= |files|
    decreases n
  {
    if n > 0 {
      var last := OutputPath(title, format, n - 1);
      var rest := files - {last};
      forall k | 0 <= k < n - 1
        ensures OutputPath(title, format, k) in rest
      {
        if OutputPath(title, format, k) == last {
          OutputPathInjective(title, format, k, n - 1);
        }
      }
      CandidatesFitIn(rest, title, format, n - 1);
    }
  }

  /** Lines 383-392: try `title.format`, then `title_1.format`, `title_2.format`,
      ... until a path is free. The loop ends for every finite folder because
      the candidates are pairwise different. */
  method AllocateOutput(disk: Disk, title: string, format: string) returns (finalOutput: string, duplicates: nat)
    ensures finalOutput == OutputPath(title, format, duplicates)
    ensures IsFirstFree(disk.files, title, format, duplicates)
  {
    finalOutput := OutputPath(title, format, 0);
    var counter: nat := 1;
    while disk.Exists(finalOutput)
      invariant finalOutput == OutputPath(title, format, counter - 1)
      invariant forall k :: 0 <= k < counter - 1 ==> OutputPath(title, format, k) in disk.files
      invariant counter - 1 <= |disk.files|
      decreases |disk.files| - (counter - 1)
    {
      CandidatesFitIn(disk.files, title, format, counter);
      finalOutput := OutputPath(title, format, counter);
      counter := counter + 1;
    }
    duplicates := counter - 1;
  }
}
