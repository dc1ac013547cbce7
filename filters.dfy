/** The audio filter chain and the per-format encoder choice of a
    conversion (Server.js lines 456-510). The chain is the equaliser of one
    of two filter sets, a comma, that set's compressor/limiter/loudness
    stage, an optional noise-reduction stage and an optional pair of spatial
    effects. The strings are the source's own. */
module Filters {
  import opened Base

  // ---------------------------------------------------------------------
  // Filter strings
  // ---------------------------------------------------------------------

  /** The two filter sets: `eqFilter`/`compLimitFilter` (loudness target -23
      LUFS) and `eqFilter2`/`compLimitFilter2` (loudness target -16 LUFS). */
  datatype FilterSet = Standard | Loud

  /** One `equalizer` stage: a peak filter (`t=q`) at a centre frequency,
      with a width in Q and a gain in dB. */
  datatype Band = Band(frequency: string, width: string, gain: string)

  function BandFilter(b: Band): string {
    "equalizer=f=" + (b.frequency + (":t=q:w=" + (b.width + (":g=" + b.gain))))
  }

  /** The bands joined by commas, in order. */
  function JoinBands(bands: seq<Band>): string {
    if |bands| == 0 then ""
    else if |bands| == 1 then BandFilter(bands[0])
    else BandFilter(bands[0]) + ("," + JoinBands(bands[1..]))
  }

  /** The bands of `eqFilter` and of `eqFilter2`. */
  function Bands(f: FilterSet): seq<Band> {
    match f
    case Standard =>
      [Band("250", "1", "2"), Band("1000", "0.5", "2"), Band("2000", "1", "2"),
       Band("1200", "0.3", "4"), Band("4000", "1", "2"), Band("8000", "1", "-2")]
    case Loud =>
      [Band("60", "1.5", "4"), Band("250", "1", "4"), Band("500", "0.7", "3"),
       Band("1000", "0.5", "3"), Band("1200", "0.3", "4"), Band("4000", "1", "3"),
       Band("8000", "1", "2")]
  }

  function Equalizer(f: FilterSet): string {
    JoinBands(Bands(f))
  }

  function Dynamics(f: FilterSet): string {
    match f
    case Standard =>
      "volume=4,dynaudnorm=p=0.95:m=10,acompressor=ratio=8:threshold=-10dB:attack=5:release=50,alimiter=limit=0.1,loudnorm=I=-23:TP=-1:LRA=14"
    case Loud =>
      "volume=8,dynaudnorm=p=0.95:m=10,acompressor=ratio=8:threshold=-10dB:attack=5:release=50,alimiter=limit=0.1,loudnorm=I=-16:TP=-1:LRA=11"
  }

  /** The noise-reduction stage, appended when hum or hiss is detected. */
  const NoiseReduction: string := ",afftdn=nr=1.0:nf=-20"

  /** The reverb and stereo-widening stages, appended together or not at all. */
  const SpatialEffects: string := ",areverb=wet_gain=-15dB:roomsize=0.9,extrastereo=m=0.9"

  // ---------------------------------------------------------------------
  // Noise detection
  // ---------------------------------------------------------------------

  /** One entry of the spectrum the probe may report, as JSON numbers. */
  datatype SpectrumEntry = SpectrumEntry(frequency: real, amplitude: real)

  /** Significant low-frequency energy. */
  predicate IsHum(e: SpectrumEntry) {
    e.frequency < 100.0 && e.amplitude > -40.0
  }

  /** Significant high-frequency energy. */
  predicate IsHiss(e: SpectrumEntry) {
    e.frequency > 8000.0 && e.amplitude > -50.0
  }

  /** `spectrum.some(entry => entry.frequency < 100 && entry.amplitude > -40)` */
  function AnyHum(spectrum: seq<SpectrumEntry>): (r: bool)
    ensures r <==> exists i :: 0 <= i < |spectrum| && IsHum(spectrum[i])
  {
    if spectrum == [] then false
    else IsHum(spectrum[0]) || AnyHum(spectrum[1..])
  }

  /** `spectrum.some(entry => entry.frequency > 8000 && entry.amplitude > -50)` */
  function AnyHiss(spectrum: seq<SpectrumEntry>): (r: bool)
    ensures r <==> exists i :: 0 <= i < |spectrum| && IsHiss(spectrum[i])
  {
    if spectrum == [] then false
    else IsHiss(spectrum[0]) || AnyHiss(spectrum[1..])
  }

  /** `noiseFilter` as lines 457-466 leave it: empty, unless a spectrum was
      reported and has a hum or a hiss entry. */
  method ChooseNoiseFilter(spectrum: Option<seq<SpectrumEntry>>) returns (noiseFilter: string)
    ensures noiseFilter == "" || noiseFilter == NoiseReduction
    ensures noiseFilter == NoiseReduction <==>
              spectrum.Some? && exists i :: 0 <= i < |spectrum.value| && (IsHum(spectrum.value[i]) || IsHiss(spectrum.value[i]))
  {
    noiseFilter := "";
    if spectrum.Some? {
      var lowFreqEnergy := AnyHum(spectrum.value);
      var highFreqEnergy := AnyHiss(spectrum.value);
      if lowFreqEnergy || highFreqEnergy {
        noiseFilter := NoiseReduction;
      }
    }
  }

  // ---------------------------------------------------------------------
  // The chain
  // ---------------------------------------------------------------------

  /** `enhanceOptions.reverb || enhanceOptions.widening ? ... : ""` */
  function Effects(reverb: bool, widening: bool): string {
    if reverb || widening then SpatialEffects else ""
  }

  /** `${eq},${compLimit}${noiseFilter}${optionalEffects}` */
  function AudioFilter(f: FilterSet, noiseFilter: string, reverb: bool, widening: bool): string {
    Equalizer(f) + ("," + (Dynamics(f) + (noiseFilter + Effects(reverb, widening))))
  }

  /** The stages a chain is made of: the filter set, whether noise reduction
      is in it, and whether the spatial effects are. */
  datatype Chain = Chain(filterSet: FilterSet, noiseReduction: bool, spatialEffects: bool)

  /** The text of a chain as ffmpeg receives it. */
  function ChainText(c: Chain): string {
    AudioFilter(c.filterSet, if c.noiseReduction then NoiseReduction else "", c.spatialEffects, false)
  }

  /** The chain line 472 or 477 builds is the text of the chain with those stages. */
  lemma AudioFilterIsChainText(f: FilterSet, noiseFilter: string, reverb: bool, widening: bool)
    requires noiseFilter == "" || noiseFilter == NoiseReduction
    ensures AudioFilter(f, noiseFilter, reverb, widening) ==
            ChainText(Chain(f, noiseFilter == NoiseReduction, reverb || widening))
  {
  }

  /** Different chains have different text: the text records every decision. */
  lemma ChainTextInjective(c1: Chain, c2: Chain)
    requires ChainText(c1) == ChainText(c2)
    ensures c1 == c2
  {
    AudioFilterInjective(c1.filterSet, if c1.noiseReduction then NoiseReduction else "", c1.spatialEffects, false,
                         c2.filterSet, if c2.noiseReduction then NoiseReduction else "", c2.spatialEffects, false);
  }

  /** The chain records every decision: two chains built with the noise
      stage either present or absent are equal only when they use the same
      filter set, agree on the noise stage and agree on whether the spatial
      effects were asked for. */
  lemma AudioFilterInjective(f1: FilterSet, n1: string, r1: bool, w1: bool,
                             f2: FilterSet, n2: string, r2: bool, w2: bool)
    requires n1 == "" || n1 == NoiseReduction
    requires n2 == "" || n2 == NoiseReduction
    requires AudioFilter(f1, n1, r1, w1) == AudioFilter(f2, n2, r2, w2)
    ensures f1 == f2 && n1 == n2 && (r1 || w1) == (r2 || w2)
  {
    SameFilterSet(f1, "," + (Dynamics(f1) + (n1 + Effects(r1, w1))), f2, "," + (Dynamics(f2) + (n2 + Effects(r2, w2))));
    var t := Dynamics(f1);
    var s1, s2 := n1 + Effects(r1, w1), n2 + Effects(r2, w2);
    ConcatAssoc(Equalizer(f1), t, s1);
    ConcatAssoc(Equalizer(f1), t, s2);
    CancelPrefix(Equalizer(f1) + ("," + t), s1, s2);
    SuffixDetermined(n1, r1, w1, n2, r2, w2);
  }

  /** Chains with equal text start with the same equaliser. */
  lemma SameFilterSet(f1: FilterSet, x1: string, f2: FilterSet, x2: string)
    requires Equalizer(f1) + x1 == Equalizer(f2) + x2
    ensures f1 == f2
  {
    EqualizerMark(f1);
    EqualizerMark(f2);
    ConcatIndex(Equalizer(f1), x1, 12);
    ConcatIndex(Equalizer(f2), x2, 12);
  }

  /** The stages after the dynamics: their lengths (0 or 21, plus 0 or 54) tell them apart. */
  lemma SuffixDetermined(n1: string, r1: bool, w1: bool, n2: string, r2: bool, w2: bool)
    requires n1 == "" || n1 == NoiseReduction
    requires n2 == "" || n2 == NoiseReduction
    requires n1 + Effects(r1, w1) == n2 + Effects(r2, w2)
    ensures n1 == n2 && (r1 || w1) == (r2 || w2)
  {
    StageLengths();
    assert |n1| + |Effects(r1, w1)| == |n2| + |Effects(r2, w2)|;
  }

  lemma ConcatIndex(x: string, y: string, i: nat)
    requires i < |x|
    ensures (x + y)[i] == x[i]
  {
  }

  lemma ConcatAssoc(e: string, d: string, t: string)
    ensures e + ("," + (d + t)) == (e + ("," + d)) + t
  {
  }

  lemma CancelPrefix(p: string, a: string, b: string)
    requires p + a == p + b
    ensures a == b
  {
    assert a == (p + a)[|p|..];
    assert b == (p + b)[|p|..];
  }

  /** The equalisers of the two filter sets already differ at index 12. */
  lemma EqualizerMark(f: FilterSet)
    ensures |Equalizer(f)| > 12
    ensures Equalizer(f)[12] == (if f == Standard then '2' else '6')
  {
    var bands := Bands(f);
    var first := BandFilter(bands[0]);
    assert Equalizer(f) == first + ("," + JoinBands(bands[1..]));
    assert first[12] == bands[0].frequency[0];
  }

  lemma StageLengths()
    ensures |NoiseReduction| == 21 && |SpatialEffects| == 54
  {
  }

  /** The effects suffix is all or nothing. */
  lemma EffectsAllOrNothing(reverb: bool, widening: bool)
    ensures Effects(reverb, widening) == SpatialEffects <==> reverb || widening
    ensures Effects(reverb, widening) == "" <==> !reverb && !widening
  {
  }

  // ---------------------------------------------------------------------
  // Per-format encoders
  // ---------------------------------------------------------------------

  /** The encode commands of lines 481-510. */
  datatype Encoder = Mp3 | Mp4WithVideo | Mp4AudioOnly | M4a | Wav | Flac

  /** The `if`/`else if` chain on the requested format; `None` for any other
      format, which leaves `ffmpegCmd` undefined. */
  function SelectEncoder(format: string, includeVideo: bool): Option<Encoder> {
    if format == "mp3" then Some(Mp3)
    else if format == "mp4" then (if includeVideo then Some(Mp4WithVideo) else Some(Mp4AudioOnly))
    else if format == "m4a" then Some(M4a)
    else if format == "wav" then Some(Wav)
    else if format == "flac" then Some(Flac)
    else None
  }

  /** The format an encoder is selected for. */
  function FormatOf(e: Encoder): string {
    match e
    case Mp3 => "mp3"
    case Mp4WithVideo => "mp4"
    case Mp4AudioOnly => "mp4"
    case M4a => "m4a"
    case Wav => "wav"
    case Flac => "flac"
  }

  /** Selection and `FormatOf` are inverse: a selected encoder belongs to the
      requested format, with video exactly for `mp4` with video asked for;
      each encoder is selected by its format; and every other format selects none. */
  lemma SelectEncoderSpec(format: string, includeVideo: bool)
    ensures SelectEncoder(format, includeVideo).Some? ==>
              && FormatOf(SelectEncoder(format, includeVideo).value) == format
              && (SelectEncoder(format, includeVideo).value == Mp4WithVideo <==> format == "mp4" && includeVideo)
    ensures SelectEncoder(format, includeVideo).None? <==>
              format != "mp3" && format != "mp4" && format != "m4a" && format != "wav" && format != "flac"
    ensures forall e: Encoder :: SelectEncoder(FormatOf(e), e == Mp4WithVideo) == Some(e)
  {
  }

  /** The filter set each encoder's chain uses (`fullAudioFilter` or `fullAudioFilter2`). */
  function FilterSetOf(e: Encoder): FilterSet {
    match e
    case Mp3 => Loud
    case Mp4AudioOnly => Loud
    case Wav => Loud
    case Mp4WithVideo => Standard
    case M4a => Standard
    case Flac => Standard
  }

  /** The settings of an encode command: the audio codec, the sample rate,
      and whether the video stream of the temporary video is encoded too.
      For `Mp4WithVideo` the chain is applied by the enhancement step
      (`pcm_s32le` at 384000 Hz) and the encode mixes the result with the video. */
  datatype EncodeSettings = EncodeSettings(codec: string, sampleRate: nat, withVideo: bool)

  function SettingsOf(e: Encoder): EncodeSettings {
    match e
    case Mp3 => EncodeSettings("mp3", 48000, false)
    case Mp4WithVideo => EncodeSettings("aac", 96000, true)
    case Mp4AudioOnly => EncodeSettings("aac", 96000, false)
    case M4a => EncodeSettings("alac", 384000, false)
    case Wav => EncodeSettings("pcm_s32le", 384000, false)
    case Flac => EncodeSettings("flac", 384000, false)
  }

  /** Which filter set a requested format is processed with: the -16 LUFS set
      for mp3, wav and mp4 without video, the -23 LUFS set for m4a, flac and
      mp4 with video; and only the mp4-with-video encoder takes the video. */
  lemma FilterSetByFormat(format: string, includeVideo: bool)
    requires SelectEncoder(format, includeVideo).Some?
    ensures var e := SelectEncoder(format, includeVideo).value;
      && (FilterSetOf(e) == Loud <==> format == "mp3" || format == "wav" || (format == "mp4" && !includeVideo))
      && (FilterSetOf(e) == Standard <==> format == "m4a" || format == "flac" || (format == "mp4" && includeVideo))
      && (SettingsOf(e).withVideo <==> format == "mp4" && includeVideo)
  {
  }
}
