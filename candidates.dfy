/** Turning scraped result elements into search candidates (Server.js lines
    105-144): each element is mapped to a record with fallbacks for its
    missing parts, then a filter that remembers the ids it has seen keeps the
    well-formed records whose id has not been seen before. */
module Candidates {
  import opened Base
  import opened YouTubeUrl

  /** What the scraper reads from one result element; `None` where the element
      or attribute is absent. */
  datatype RawRecord = RawRecord(
    href: Option<string>,          // the title anchor's href
    titleText: Option<string>,     // the title anchor's text content
    imageSrc: Option<string>,      // the thumbnail image's src
    thumbnailAttr: Option<string>, // the src attribute of the `ytd-thumbnail #img` element
    channelText: Option<string>)   // the channel anchor's text content

  datatype Candidate = Candidate(id: string, title: string, thumbnail: string, channel: string, url: string)

  const PlaceholderThumbnail: string := "https://placehold.co/120x90?text=Thumbnail"
  const UnknownChannel: string := "Unknown Channel"

  // ---------------------------------------------------------------------
  // `url.match(/v=([^&]+)/)`
  // ---------------------------------------------------------------------

  predicate ParamAt(s: string, i: nat) {
    i + 2 < |s| && s[i] == 'v' && s[i + 1] == '=' && s[i + 2] != '&'
  }

  /** The first index at or after `from` where `v=` is followed by a character other than `&`. */
  function FirstParam(s: string, from: nat): (r: Option<nat>)
    ensures r.Some? ==> from <= r.value && ParamAt(s, r.value)
    ensures r.Some? ==> forall j :: from <= j < r.value ==> !ParamAt(s, j)
    ensures r.None? ==> forall j :: from <= j ==> !ParamAt(s, j)
    decreases |s| - from
  {
    if from >= |s| then None
    else if ParamAt(s, from) then Some(from)
    else FirstParam(s, from + 1)
  }

  /** The longest run of characters other than `&` starting at j. */
  function RunToAmpersand(s: string, j: nat): (r: string)
    requires j <= |s|
    ensures j + |r| <= |s| && r == s[j..j + |r|]
    ensures forall k :: 0 <= k < |r| ==> r[k] != '&'
    ensures j + |r| == |s| || s[j + |r|] == '&'
    decreases |s| - j
  {
    if j == |s| || s[j] == '&' then "" else [s[j]] + RunToAmpersand(s, j + 1)
  }

  /** The capture group of `v=([^&]+)`, when the link has one. */
  function VideoParam(url: string): (r: Option<string>)
    ensures r.Some? ==> |r.value| > 0 && forall k :: 0 <= k < |r.value| ==> r.value[k] != '&'
    ensures r.Some? <==> exists i: nat :: ParamAt(url, i)
    ensures r.Some? ==> exists i: nat ::
              && ParamAt(url, i) && (forall j: nat :: j < i ==> !ParamAt(url, j))
              && i + 2 + |r.value| <= |url| && url[i + 2..i + 2 + |r.value|] == r.value
              && (i + 2 + |r.value| == |url| || url[i + 2 + |r.value|] == '&')
  {
    match FirstParam(url, 0)
    case None => None
    case Some(i) => Some(RunToAmpersand(url, i + 2))
  }

  // ---------------------------------------------------------------------
  // Mapping
  // ---------------------------------------------------------------------

  function FallbackId(index: nat): string {
    "fallback-" + NatToString(index)
  }

  function UntitledTitle(index: nat): string {
    "Untitled Video " + NatToString(index + 1)
  }

  function DerivedThumbnail(id: string): string {
    "https://img.youtube.com/vi/" + id + "/hqdefault.jpg"
  }

  /** `textContent.trim() || fallback`, for an element that may be absent. */
  function TrimmedOr(text: Option<string>, fallback: string): string {
    if text.Some? && Trim(text.value) != "" then Trim(text.value) else fallback
  }

  /** The record the mapping callback builds for the element at `index`. */
  function MapRecord(raw: RawRecord, index: nat): Candidate {
    var url := OrElse(raw.href, "");
    var id := match VideoParam(url) case Some(v) => v case None => FallbackId(index);
    var thumbnailMeta := OrElse(raw.thumbnailAttr, if id != "" then DerivedThumbnail(id) else "");
    var title := TrimmedOr(raw.titleText, UntitledTitle(index));
    var thumbnail := if Truthy(raw.imageSrc) then raw.imageSrc.value
                     else if thumbnailMeta != "" then thumbnailMeta
                     else PlaceholderThumbnail;
    var channel := TrimmedOr(raw.channelText, UnknownChannel);
    Candidate(id, title, thumbnail, channel, url)
  }

  /** `videos.map((video, index) => ...)`. */
  function MapAll(raws: seq<RawRecord>): (recs: seq<Candidate>)
    ensures |recs| == |raws|
    ensures forall i :: 0 <= i < |raws| ==> recs[i] == MapRecord(raws[i], i)
  {
    seq(|raws|, i requires 0 <= i < |raws| => MapRecord(raws[i], i))
  }

  /** Because of the fallbacks, a mapped record always has an id, a title, a
      thumbnail and a channel. The id is the `v=` value of the link or
      `fallback-<index>`; the title is the trimmed text or
      `Untitled Video <index + 1>`; and since the id is never empty, the
      placeholder thumbnail is never chosen: the thumbnail is the image's src,
      else the thumbnail attribute, else the image derived from the id. */
  lemma MapRecordFields(raw: RawRecord, index: nat)
    ensures var c := MapRecord(raw, index);
      && c.id != "" && c.title != "" && c.thumbnail != "" && c.channel != ""
      && c.url == OrElse(raw.href, "")
      && c.id == (if VideoParam(c.url).Some? then VideoParam(c.url).value else FallbackId(index))
      && c.title == TrimmedOr(raw.titleText, UntitledTitle(index))
      && c.thumbnail == (if Truthy(raw.imageSrc) then raw.imageSrc.value
                         else if Truthy(raw.thumbnailAttr) then raw.thumbnailAttr.value
                         else DerivedThumbnail(c.id))
  {
    var c := MapRecord(raw, index);
    assert |FallbackId(index)| > 0;
    assert |UntitledTitle(index)| > 0;
    assert |DerivedThumbnail(c.id)| > 0;
    assert |UnknownChannel| > 0;
  }

  // ---------------------------------------------------------------------
  // Validation and de-duplication
  // ---------------------------------------------------------------------

  /** The value the filter callback returns for a record it has not seen:
      id, title, link and thumbnail present and the link accepted. */
  predicate IsWellFormed(c: Candidate) {
    c.id != "" && c.title != "" && c.url != "" && IsAccepted(c.url) && c.thumbnail != ""
  }

  /** Record k survives the filter: it is well formed, and no earlier record,
      kept or rejected, carried its id. */
  predicate Survives(recs: seq<Candidate>, k: nat)
    requires k < |recs|
  {
    IsWellFormed(recs[k]) && forall j :: 0 <= j < k ==> recs[j].id != recs[k].id
  }

  /** The survivors among the first n records, in input order. */
  function Survivors(recs: seq<Candidate>, n: nat): seq<Candidate>
    requires n <= |recs|
    decreases n
  {
    if n == 0 then []
    else Survivors(recs, n - 1) + (if Survives(recs, n - 1) then [recs[n - 1]] else [])
  }

  function IdsBefore(recs: seq<Candidate>, n: nat): set<string>
    requires n <= |recs|
  {
    set j | 0 <= j < n :: recs[j].id
  }

  /** The `.filter` callback with its `seenIds` set: the id is recorded as
      seen before the record is checked, so a rejected record still uses up
      its id. */
  method FilterCandidates(recs: seq<Candidate>) returns (kept: seq<Candidate>)
    ensures kept == Survivors(recs, |recs|)
  {
    var seenIds: set<string> := {};
    kept := [];
    var i := 0;
    while i < |recs|
      invariant i <= |recs|
      invariant seenIds == IdsBefore(recs, i)
      invariant kept == Survivors(recs, i)
    {
      var video := recs[i];
      if video.id !in seenIds {
        seenIds := seenIds + {video.id};
        if IsWellFormed(video) {
          kept := kept + [video];
        }
      }
      assert IdsBefore(recs, i + 1) == IdsBefore(recs, i) + {video.id};
      i := i + 1;
    }
  }

  /** The survivors form an order-preserving subsequence of the input: `idx`
      lists, in increasing order, exactly the positions that survive. */
  lemma {:induction false} SurvivorsSubsequence(recs: seq<Candidate>, n: nat) returns (idx: seq<nat>)
    requires n <= |recs|
    ensures |idx| == |Survivors(recs, n)|
    ensures forall k :: 0 <= k < |idx| ==> idx[k] < n && recs[idx[k]] == Survivors(recs, n)[k]
    ensures forall k, l :: 0 <= k < l < |idx| ==> idx[k] < idx[l]
    ensures forall j :: 0 <= j < n ==> (Survives(recs, j) <==> j in idx)
    decreases n
  {
    if n == 0 {
      idx := [];
    } else {
      var prev := SurvivorsSubsequence(recs, n - 1);
      var before := Survivors(recs, n - 1);
      if Survives(recs, n - 1) {
        idx := prev + [n - 1];
        assert Survivors(recs, n) == before + [recs[n - 1]];
        forall k | 0 <= k < |idx|
          ensures idx[k] < n && recs[idx[k]] == Survivors(recs, n)[k]
        {
          if k < |prev| {
            assert idx[k] == prev[k];
          }
        }
        forall j | 0 <= j < n
          ensures Survives(recs, j) <==> j in idx
        {
          assert j in idx <==> j in prev || j == n - 1;
        }
      } else {
        idx := prev;
        assert Survivors(recs, n) == before;
        forall j | 0 <= j < n
          ensures Survives(recs, j) <==> j in idx
        {
          assert j in prev ==> j < n - 1;
        }
      }
    }
  }

  /** No two survivors share an id. */
  lemma SurvivorsDistinct(recs: seq<Candidate>, n: nat)
    requires n <= |recs|
    ensures forall a, b :: 0 <= a < b < |Survivors(recs, n)| ==> Survivors(recs, n)[a].id != Survivors(recs, n)[b].id
  {
    var idx := SurvivorsSubsequence(recs, n);
    forall a, b | 0 <= a < b < |Survivors(recs, n)|
      ensures Survivors(recs, n)[a].id != Survivors(recs, n)[b].id
    {
      assert idx[a] < idx[b];
      assert Survives(recs, idx[b]) by { assert idx[b] in idx; }
    }
  }

  /** Every survivor is well formed; in particular its link is non-empty and accepted. */
  lemma SurvivorsWellFormed(recs: seq<Candidate>, n: nat)
    requires n <= |recs|
    ensures forall x :: x in Survivors(recs, n) ==> IsWellFormed(x) && x.url != "" && IsAccepted(x.url)
  {
    var idx := SurvivorsSubsequence(recs, n);
    forall x | x in Survivors(recs, n)
      ensures IsWellFormed(x)
    {
      var k :| 0 <= k < |Survivors(recs, n)| && Survivors(recs, n)[k] == x;
      assert idx[k] in idx;
    }
  }

  /** When the first record carrying an id is rejected, that id is used up:
      no record with it appears in the output, however well formed. */
  lemma RejectedRecordUsesUpId(recs: seq<Candidate>, j: nat)
    requires j < |recs|
    requires !IsWellFormed(recs[j])
    requires forall i :: 0 <= i < j ==> recs[i].id != recs[j].id
    ensures forall x :: x in Survivors(recs, |recs|) ==> x.id != recs[j].id
  {
    var idx := SurvivorsSubsequence(recs, |recs|);
    forall x | x in Survivors(recs, |recs|)
      ensures x.id != recs[j].id
    {
      var k :| 0 <= k < |Survivors(recs, |recs|)| && Survivors(recs, |recs|)[k] == x;
      assert Survives(recs, idx[k]) by { assert idx[k] in idx; }
      if idx[k] > j {
        assert recs[j].id != recs[idx[k]].id;
      } else if idx[k] < j {
        assert recs[idx[k]].id != recs[j].id;
      }
    }
  }

  /** A sequence of well-formed records with distinct ids passes the filter unchanged. */
  lemma {:induction false} FilterKeepsCleanInput(xs: seq<Candidate>, n: nat)
    requires n <= |xs|
    requires forall x :: x in xs ==> IsWellFormed(x)
    requires forall a, b :: 0 <= a < b < |xs| ==> xs[a].id != xs[b].id
    ensures Survivors(xs, n) == xs[..n]
    decreases n
  {
    if n > 0 {
      FilterKeepsCleanInput(xs, n - 1);
      assert xs[n - 1] in xs;
      assert Survives(xs, n - 1);
      assert xs[..n] == xs[..n - 1] + [xs[n - 1]];
    }
  }

  /** Filtering is idempotent: filtering the output again changes nothing. */
  lemma FilterIdempotent(recs: seq<Candidate>)
    ensures var out := Survivors(recs, |recs|); Survivors(out, |out|) == out
  {
    var out := Survivors(recs, |recs|);
    SurvivorsWellFormed(recs, |recs|);
    SurvivorsDistinct(recs, |recs|);
    FilterKeepsCleanInput(out, |out|);
    assert out[..|out|] == out;
  }
}
