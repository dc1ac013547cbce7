# youtube-converter server core, modelled in Dafny

This project models the three request handlers of `src/Server/Server.js`:

- `/search` scrapes a YouTube results page into a deduplicated list of video candidates. The results are cached for five minutes under `${query}:${page}`.
- `/preview` pulls the 11-character video id out of a link.
- `/convert` admits a request (url, format, id), resolves a file-system-safe title and picks the first free output name in `~/Downloads`. It then runs the download, probe, filter-chain and encode pipeline and cleans up its work files on success and on failure.

The model is split by concern:

- `base.dfy` (`Base`): JavaScript truthiness, `||` on strings, number printing, `trim()` and ASCII `toUpperCase()`.
- `url.dfy` (`YouTubeUrl`): the acceptance pattern `^(https?:\/\/)(www\.)?(youtube\.com|youtu\.be|music\.youtube\.com)\/.+$`. It is given as a parser with a round trip to its renderer, plus the leftmost-match semantics of the id pattern `(?:v=|/)([0-9A-Za-z_-]{11})`.
- `candidates.dfy` (`Candidates`): mapping scraped elements to candidates. The filter is an imperative loop proved equal to a recursive specification.
- `cache.dfy` (`SearchCache`): the cache map as a class with `Store`, and the freshness rule.
- `search.dfy` (`Search`): the `/search` handler as a method over the cache.
- `title.dfy` (`Title`): the title sanitiser and its fallback.
- `filters.dfy` (`Filters`): noise detection, the two filter presets and the choice of encoder per format.
- `disk.dfy` (`FileSystem`): the Downloads directory as a class holding a set of paths.
- `paths.dfy` (`OutputPaths`): output and work-file names, and the duplicate-name loop.
- `convert.dfy` (`Convert`): `/preview`, request admission and the conversion pipeline.

The pipeline is given twice:

- as a pure specification `Run(files, job, paths, programs)`;
- as the imperative `HandleConvert`, which mutates a `Disk`.

`HandleConvert` is proved equal to `Run`, and the lemmas about `Run` carry the properties.

The model treats these external inputs as parameters:

- the helper programs (yt-dlp and ffmpeg): each step either succeeds or fails, and may or may not have created its output file;
- the ffprobe readings;
- the browser session: either a list of raw result elements or an error;
- each clock reading.

A few behaviours of the code that the model keeps:

- a failed conversion replies 400 (line 574);
- a search scrapes the results page once, with no retry (lines 73-159);
- an empty result list is cached like any other (line 153);
- a failing first ffprobe call (line 449) fails the conversion;
- mp3, wav and audio-only mp4 use the -16 LUFS filter set, while m4a, flac and mp4 with video use the -23 LUFS set (lines 481-510).

## Model

| member | source | states |
|---|---|---|
| Base.NatToString | src/Server/Server.js:115 | a number prints as a non-empty run of decimal digits, a single digit iff it is below 10 |
| Base.NatToStringInjective | src/Server/Server.js:115 | different numbers print differently, so `fallback-<index>` ids and `_<n>` suffixes never coincide |
| Base.NatToStringLength | src/Server/Server.js:378 | a number below 10^k prints with at most k digits |
| Base.IntToString | src/Server/Server.js:66 | an integer prints as a non-empty string of digits with at most a leading `-`, so never with a `:` |
| Base.IntToStringInjective | src/Server/Server.js:66 | different page numbers print differently |
| Base.TrimStart | src/Server/Server.js:372 | removes exactly the leading run of whitespace and line terminators |
| Base.TrimEnd | src/Server/Server.js:372 | removes exactly the trailing run of whitespace and line terminators |
| Base.Trim | src/Server/Server.js:372 | the result is what TrimStart leaves less a run of trailing whitespace, and neither of its ends is whitespace: with TrimStart's contract, the slice of the input between its leading and its trailing whitespace |
| Base.AsciiUpper | src/Server/Server.js:550 | keeps the length, maps each lower-case ASCII letter to its capital and leaves every other character as it is |
| YouTubeUrl.ParseScheme | src/Server/Server.js:134 | recognises `http://` or `https://` at the start and returns what follows |
| YouTubeUrl.ParseWww | src/Server/Server.js:134 | consumes an optional `www.` |
| YouTubeUrl.ParseHost | src/Server/Server.js:134 | recognises one of the three hosts followed by `/` and returns that host |
| YouTubeUrl.SchemeRoundTrip | src/Server/Server.js:134 | parsing a rendered scheme gives that scheme back |
| YouTubeUrl.WwwRoundTrip | src/Server/Server.js:134 | parsing a rendered `www.` choice gives it back |
| YouTubeUrl.HostRoundTrip | src/Server/Server.js:134 | parsing a rendered host gives that host back |
| YouTubeUrl.ParseRender | src/Server/Server.js:134 | every well-formed link shape renders to a string that parses back to the same shape |
| YouTubeUrl.RenderParse | src/Server/Server.js:134 | every string that parses is the rendering of the shape it parses to |
| YouTubeUrl.AcceptedIff | src/Server/Server.js:350-351 | a string passes the acceptance pattern iff it is the rendering of some link shape with a non-empty rest |
| YouTubeUrl.HostIsCaseSensitive | src/Server/Server.js:350 | `https://YouTube.com/x` is refused: the pattern has no case-insensitive flag |
| YouTubeUrl.MatchedId | src/Server/Server.js:172-178 | the id read at a match position is 11 id characters |
| YouTubeUrl.LeftmostMatch | src/Server/Server.js:173 | the returned position matches, and no earlier position does |
| YouTubeUrl.ExtractVideoIdSpec | src/Server/Server.js:172-178 | an id is found iff some position matches; the id is the 11 characters after the leftmost `v=` or `/` followed by 11 id characters |
| Candidates.FirstParam | src/Server/Server.js:114 | the position of the first `v=` or none, and no earlier position holds one |
| Candidates.RunToAmpersand | src/Server/Server.js:114 | the longest run of characters without `&` |
| Candidates.VideoParam | src/Server/Server.js:114 | `v=([^&]+)` matches iff some `v=` is followed by a character other than `&`; the value is then the whole `&`-free run after the leftmost such `v=` |
| Candidates.MapAll | src/Server/Server.js:108-132 | one candidate per element, in order |
| Candidates.MapRecordFields | src/Server/Server.js:113-131 | a mapped candidate has non-empty id, title, thumbnail and channel; its url is the href or empty; its id is the `v=` value or `fallback-<index>`; its title is the trimmed text or `Untitled Video <index+1>`; its thumbnail is the image src, else the thumbnail attribute, else the image derived from the id, so never the placeholder |
| Candidates.FilterCandidates | src/Server/Server.js:133-144 | the loop with its `seenIds` set keeps exactly the specification's survivors |
| Candidates.SurvivorsSubsequence | src/Server/Server.js:133-144 | the survivors are an order-preserving subsequence of the input |
| Candidates.SurvivorsDistinct | src/Server/Server.js:137-141 | no two survivors share an id |
| Candidates.SurvivorsWellFormed | src/Server/Server.js:134-143 | every survivor has a non-empty id, title, url and thumbnail, and an accepted url |
| Candidates.RejectedRecordUsesUpId | src/Server/Server.js:137-143 | a record rejected only for a bad url still claims its id, so a later valid record with that id is dropped |
| Candidates.FilterKeepsCleanInput | src/Server/Server.js:133-144 | a list that is already well formed with distinct ids passes unchanged |
| Candidates.FilterIdempotent | src/Server/Server.js:133-144 | filtering the survivors again changes nothing |
| SearchCache.CacheKeyInjective | src/Server/Server.js:66 | two different (query, page) pairs never share a key |
| SearchCache.StoredSearchIsServed | src/Server/Server.js:66-153 | after a store at time t (line 153), the same request is served (lines 66-71) those results iff fewer than five minutes have passed; every other request is served as before |
| SearchCache.StaleStaysStale | src/Server/Server.js:68 | a stale entry stays stale as time advances |
| SearchCache.Cache.constructor | src/Server/Server.js:24 | the cache starts empty |
| SearchCache.Cache.Store | src/Server/Server.js:153 | overwrites the one entry under the key with the results and the time |
| Search.EchoDependsOnCacheAsWritten | src/Server/Server.js:70-155 | as written, a cache miss (line 155, after the shadowing at line 78) echoes the browser tab where a hit (line 70) echoes the page number |
| Search.EchoIntendedIgnoresCache | src/Server/Server.js:59-70 | the intended echo is the requested page whether or not the cache hit |
| Search.ScrapeResultsValid | src/Server/Server.js:105-144 | every result of a scrape is well formed with an accepted url, and the ids are distinct |
| Search.HandleSearch | src/Server/Server.js:58-160 | a falsy or non-string query gives 400 and nothing else happens; a fresh entry is served without scraping; otherwise one scrape, whose results, even empty ones, are stored and returned, or whose error gives 500 with the cache unchanged |
| Title.StripDisallowed | src/Server/Server.js:372 | keeps only characters of `[a-zA-Z0-9\s-]`, never lengthens, and leaves a string made only of such characters unchanged |
| Title.StripDisallowedAppend | src/Server/Server.js:372 | one character is kept exactly when it is allowed, and stripping a concatenation concatenates the results, so every allowed character survives in order |
| Title.CollapseSpaces | src/Server/Server.js:372 | never lengthens |
| Title.CollapseWithoutSpaces | src/Server/Server.js:372 | a string without whitespace is left unchanged |
| Title.CollapseAppend | src/Server/Server.js:372 | collapsing splits at any point that follows a non-space character |
| Title.CollapseRun | src/Server/Server.js:372 | each maximal whitespace run, of any length, becomes exactly one `_` between the collapsed text before and after it |
| Title.Truncate | src/Server/Server.js:372 | the prefix of exactly n characters, or the whole string when it has at most n |
| Title.CollapseShape | src/Server/Server.js:372 | after stripping and collapsing, only `[A-Za-z0-9_-]` remain, with no `__`; a leading `_` comes from leading whitespace |
| Title.CollapseKeepsText | src/Server/Server.js:372 | collapsing keeps every non-space character in order and only adds separators |
| Title.SanitizeShape | src/Server/Server.js:372 | a sanitised title has at most 150 characters, all from `[A-Za-z0-9_-]`, with no `__` |
| Title.FallbackLength | src/Server/Server.js:378 | `converted_<timestamp>` has at most 26 characters for any date-range timestamp |
| Title.ResolveTitleSpec | src/Server/Server.js:367-379 | the title is never empty: the sanitised lookup output when that is non-empty, `converted_<timestamp>` when the lookup failed or left nothing; only `[A-Za-z0-9_-]` characters |
| Filters.AnyHum | src/Server/Server.js:460 | true iff some entry is below 100 Hz and above -40 |
| Filters.AnyHiss | src/Server/Server.js:461 | true iff some entry is above 8000 Hz and above -50 |
| Filters.ChooseNoiseFilter | src/Server/Server.js:456-466 | the noise filter is the `afftdn` stage iff a spectrum is present with hum or hiss, and empty otherwise |
| Filters.AudioFilterIsChainText | src/Server/Server.js:469-477 | the filter string of lines 472/477 is the text of the chain made of the preset, noise flag and effects flag |
| Filters.ChainTextInjective | src/Server/Server.js:469-477 | different chains give different filter strings |
| Filters.AudioFilterInjective | src/Server/Server.js:469-477 | the filter string determines the preset, the noise stage and the effects |
| Filters.EffectsAllOrNothing | src/Server/Server.js:471-476 | reverb and widening are added together as one stage iff either is requested |
| Filters.SelectEncoderSpec | src/Server/Server.js:481-510 | an encoder exists iff the format is one of mp3, mp4, m4a, wav and flac; its format round-trips; video matters only for mp4 |
| Filters.FilterSetByFormat | src/Server/Server.js:481-510 | mp3, wav and audio-only mp4 get the -16 LUFS chain (line 477); m4a, flac and mp4 with video get the -23 LUFS chain (line 472); only mp4 with video encodes the video stream |
| FileSystem.Disk.constructor | src/Server/Server.js:356 | the directory starts with the given files |
| FileSystem.Disk.Unlink | src/Server/Server.js:536 | removes exactly the named existing file |
| FileSystem.Disk.Create | src/Server/Server.js:408 | adds exactly the named file |
| OutputPaths.InDownloadsInjective | src/Server/Server.js:381-389 | different names give different paths in the directory |
| OutputPaths.OutputNameInjective | src/Server/Server.js:383-389 | different counters give different output names |
| OutputPaths.OutputPathInjective | src/Server/Server.js:383-389 | different counters give different output paths |
| OutputPaths.WorkNamesDistinct | src/Server/Server.js:381-489 | the temp audio, temp video, enhanced audio and output paths of one title (lines 381-383 and 489) are pairwise different |
| OutputPaths.FirstFreeUnique | src/Server/Server.js:388-392 | at most one counter is the first free one |
| OutputPaths.CandidatesFitIn | src/Server/Server.js:388-392 | n candidates that all exist fit in the directory, so the loop ends |
| OutputPaths.AllocateOutput | src/Server/Server.js:383-392 | returns the first candidate path `title.fmt`, `title_1.fmt`, ... that does not exist, with every earlier one existing |
| Convert.PreviewSpec | src/Server/Server.js:163-182 | a missing or non-string url gives 400; no match gives 400; otherwise the 11-character leftmost id |
| Convert.AdmitSpec | src/Server/Server.js:340-365 | refusals in order (url, format, pattern, id), each iff its condition holds after the earlier ones pass; an admitted request has an accepted url and its id |
| Convert.AcceptedWithoutId | src/Server/Server.js:350-365 | `https://youtu.be/abc` passes the pattern yet is refused for having no id |
| Convert.ShortLinkAccepted | src/Server/Server.js:350 | `https://youtu.be/abc` passes the acceptance pattern |
| Convert.ShortLinkHasNoId | src/Server/Server.js:360 | `https://youtu.be/abc` holds no 11-character id |
| Convert.JobPathsDistinct | src/Server/Server.js:381-489 | the four work paths of a job (lines 381-383 and 489) are pairwise different |
| Convert.AcquireAddsWorkFiles | src/Server/Server.js:396-446 | acquisition only adds the temp audio and temp video files, and a successful acquisition leaves the temp audio present |
| Convert.EncodeAddsOutputs | src/Server/Server.js:479-532 | encoding only adds the enhanced audio and the output |
| Convert.TryBlockAddsWorkFiles | src/Server/Server.js:394-532 | the try block only adds work files |
| Convert.RunTouchesOnlyWorkFiles | src/Server/Server.js:394-578 | every file other than the job's work files is present afterwards iff it was before |
| Convert.RunSuccessCleansUp | src/Server/Server.js:534-551 | on success the reply names the output and `<FORMAT> saved using video title`; the output remains; the temps are gone, and the enhanced audio too for mp4 with video; the chain used came from the probe and the encoder |
| Convert.RunFailureCleansUp | src/Server/Server.js:552-578 | on failure the output and temps are gone, and the enhanced audio for mp4 with video from the enhance stage on; failures before encoding ran no filter |
| Convert.RunSucceedsIff | src/Server/Server.js:394-551 | a fresh output path succeeds iff every step succeeds, the format has an encoder, and the files each existence check asks for exist |
| Convert.AcquireSource | src/Server/Server.js:396-446 | the imperative acquisition has exactly the effect and failure of the specification |
| Convert.RunEncoder | src/Server/Server.js:479-532 | the imperative encode stage has exactly the effect and failure of the specification |
| Convert.TryConvert | src/Server/Server.js:394-532 | the imperative try block computes the noise filter and chain, and matches the specification |
| Convert.CleanUpAfterSuccess | src/Server/Server.js:534-544 | removes the temp audio, then the temp video and enhanced audio when present |
| Convert.CleanUpAfterFailure | src/Server/Server.js:556-572 | removes each of the temp audio, temp video, output and enhanced audio that exists |
| Convert.HandleConvert | src/Server/Server.js:333-579 | a refused request gets the refusal and leaves the disk alone; an admitted one resolves the title, allocates the first free output, and has exactly the reply, files and filter chain of the specification |

## Left out

- HTTP plumbing (Express, CORS, body parsing, logging, listening on port 5050) is not modelled. The handlers take the request fields as values and return reply datatypes with their status codes.
- The browser session is not modelled: the page load, the scrolling, the "Load more" clicks, the swallowed `waitForSelector` timeout and the DOM queries. It becomes a list of raw elements, each with the link, text, thumbnail sources and channel text the selectors would find, or an error message.
- `browser.close()` is not modelled. It is skipped when the scrape throws, so the orphaned browser process is not represented.
- Search.HandleSearch: on a cache miss the reply echoes the requested page (the corrected behaviour, see Findings) instead of the browser tab object. How Express would serialise that object is not modelled.
- The `page` field is modelled as an integer or absent. A string, fractional or `null` page, and how it prints in the cache key, is not modelled.
- A non-string url or query is modelled as absent. A truthy non-string format is not modelled: formats are strings.
- The exact shell command strings are left out, and so are their quoting and the five-minute timeouts. Each program run is an oracle step saying whether it succeeded and whether it created its output file. The `details` text of a failed conversion (stderr or message) is replaced by the stage that failed.
- The ffprobe statistics (sample rate, bit rate, bit depth) are only logged, and their floating-point arithmetic is not modelled. A probe is either a failure or a reading with an optional spectrum. A spectrum that fails to parse as JSON counts as a failed probe.
- Frequencies and amplitudes are real numbers: the model has no NaN and uses no JavaScript coercion.
- The commented-out legacy handler (lines 184-329) is not modelled.
- Concurrency is not modelled: two requests interleaving during awaits, the shared implicit global `ytDlpCmd`, and races on the cache and on file names. Each request runs to completion on its own.
- `fs.unlinkSync` is modelled as always succeeding on an existing file. An unlink that throws would skip the remaining cleanup and is not modelled. Files that the programs themselves delete are not modelled either.
- The Downloads directory is the constant `~/Downloads`, and `path.join` is modelled as joining with `/`. Normalisation of a format or title containing `/` or `..` is not modelled (the title cannot contain them).
- Base.AsciiUpper: `toUpperCase()` is modelled for ASCII only. A successful conversion implies one of the five ASCII formats, so the saved message is exact.
- `src/Sever/Sever.js` and `src/App.js` are not part of this model.

## Findings

| source | as written | input that shows it | evidently intended | confidence | as-written member | corrected member |
|---|---|---|---|---|---|---|
| src/Server/Server.js:59-155 | inside the try block, `const page = await browser.newPage()` shadows the requested `page`, so a cache miss replies with the browser tab object while a cache hit replies with the page number; how Express serialises the tab is not modelled, and if the object holds circular references `JSON.stringify` throws inside the try block, so the miss becomes a 500 "Search failed" after line 153 has already stored the results and the next identical request is a 200 hit | any valid query that misses the cache, e.g. `{ "query": "lofi", "page": 2 }` | both replies echo the requested page number (2) | not executed | Search.EchoDependsOnCacheAsWritten | Search.EchoIntendedIgnoresCache |
