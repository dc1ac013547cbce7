/** The title a conversion saves under (Server.js lines 367-379): the text
    the title lookup printed, trimmed, stripped of every character outside
    `[a-zA-Z0-9\s-]`, with each whitespace run replaced by `_`, cut to 150
    characters; or `converted_<timestamp>` when the lookup failed or left
    nothing. Every character the stripping keeps lies in the Basic
    Multilingual Plane, so cutting by characters here agrees with cutting
    by UTF-16 code units. */
module Title {
  import opened Base

  const MaxTitleLength: nat := 150

  /** `[a-zA-Z0-9\s-]` */
  predicate IsKeptChar(c: char) {
    ('a' <= c <= 'z') || ('A' <= c <= 'Z') || ('0' <= c <= '9') || IsJsSpace(c) || c == '-'
  }

  /** The characters a saved title may contain. */
  predicate IsTitleChar(c: char) {
    ('a' <= c <= 'z') || ('A' <= c <= 'Z') || ('0' <= c <= '9') || c == '_' || c == '-'
  }

  /** `replace(/[^a-zA-Z0-9\s-]/g, '')` */
  function StripDisallowed(s: string): (r: string)
    ensures |r| <= |s|
    ensures forall i :: 0 <= i < |r| ==> IsKeptChar(r[i])
    ensures (forall i :: 0 <= i < |s| ==> IsKeptChar(s[i])) ==> r == s
  {
    if s == [] then []
    else (if IsKeptChar(s[0]) then [s[0]] else []) + StripDisallowed(s[1..])
  }

  /** `replace(/\s+/g, '_')`: every maximal run of whitespace becomes one `_`. */
  function CollapseSpaces(s: string): (r: string)
    ensures |r| <= |s|
    decreases |s|
  {
    if s == [] then []
    else if IsJsSpace(s[0]) then "_" + CollapseSpaces(TrimStart(s))
    else [s[0]] + CollapseSpaces(s[1..])
  }

  /** `substring(0, n)` */
  function Truncate(s: string, n: nat): (r: string)
    ensures |r| == if |s| <= n then |s| else n
    ensures r == s[..|r|]
  {
    if |s| <= n then s else s[..n]
  }

  /** The whole chain of line 372. */
  function Sanitize(stdout: string): string {
    Truncate(CollapseSpaces(StripDisallowed(Trim(stdout))), MaxTitleLength)
  }

  /** `converted_${timestamp}` */
  function FallbackTitle(timestamp: nat): string {
    "converted_" + NatToString(timestamp)
  }

  /** The title chosen: the sanitised lookup output when the lookup succeeded
      and the result is non-empty, the fallback otherwise. */
  function ResolveTitle(lookup: Option<string>, timestamp: nat): string {
    if lookup.Some? && Sanitize(lookup.value) != "" then Sanitize(lookup.value) else FallbackTitle(timestamp)
  }

  /** Keeps exactly the non-whitespace characters, in order, out of a string. */
  function NonSpaces(s: string): string {
    if s == [] then [] else (if IsJsSpace(s[0]) then [] else [s[0]]) + NonSpaces(s[1..])
  }

  /** Keeps exactly the characters other than `_`, in order. */
  function NonUnderscores(s: string): string {
    if s == [] then [] else (if s[0] == '_' then [] else [s[0]]) + NonUnderscores(s[1..])
  }

  /** Stripping works character by character: one character is kept exactly
      when it is allowed, and the result for a concatenation is the
      concatenation of the results, so every allowed character survives in
      order. */
  lemma {:induction false} StripDisallowedAppend(a: string, b: string)
    ensures StripDisallowed(a + b) == StripDisallowed(a) + StripDisallowed(b)
    ensures |a| == 1 ==> StripDisallowed(a) == if IsKeptChar(a[0]) then a else []
    decreases |a|
  {
    if a == [] {
      assert a + b == b;
    } else {
      assert (a + b)[0] == a[0];
      assert (a + b)[1..] == a[1..] + b;
      StripDisallowedAppend(a[1..], b);
      if |a| == 1 {
        assert a[1..] == [];
      }
    }
  }

  /** A string without whitespace collapses to itself. */
  lemma {:induction false} CollapseWithoutSpaces(s: string)
    requires forall i :: 0 <= i < |s| ==> !IsJsSpace(s[i])
    ensures CollapseSpaces(s) == s
    decreases |s|
  {
    if s != [] {
      CollapseWithoutSpaces(s[1..]);
    }
  }

  /** Trimming a whitespace run off the front of `ws + y` leaves y. */
  lemma {:induction false} TrimStartOfRun(ws: string, y: string)
    requires forall i :: 0 <= i < |ws| ==> IsJsSpace(ws[i])
    requires y == [] || !IsJsSpace(y[0])
    ensures TrimStart(ws + y) == y
    decreases |ws|
  {
    if ws == [] {
      assert ws + y == y;
    } else {
      assert (ws + y)[1..] == ws[1..] + y;
      TrimStartOfRun(ws[1..], y);
    }
  }

  /** When a ends in a non-space, trimming the front of `a + b` stops inside a. */
  lemma {:induction false} TrimStartAppend(a: string, b: string)
    requires a != [] && !IsJsSpace(a[|a| - 1])
    ensures TrimStart(a + b) == TrimStart(a) + b
    ensures TrimStart(a) != [] && !IsJsSpace(TrimStart(a)[|TrimStart(a)| - 1])
    decreases |a|
  {
    if IsJsSpace(a[0]) {
      assert (a + b)[1..] == a[1..] + b;
      TrimStartAppend(a[1..], b);
    }
  }

  /** Collapsing splits at a point that follows a non-space character. */
  lemma {:induction false} CollapseAppend(a: string, b: string)
    requires a == [] || !IsJsSpace(a[|a| - 1])
    ensures CollapseSpaces(a + b) == CollapseSpaces(a) + CollapseSpaces(b)
    decreases |a|
  {
    if a == [] {
      assert a + b == b;
    } else if IsJsSpace(a[0]) {
      var t := TrimStart(a);
      assert t == TrimStart(a[1..]);
      TrimStartAppend(a, b);
      CollapseAppend(t, b);
      CollapseSpaceHead(a, b, t);
    } else {
      CollapseAppend(a[1..], b);
      CollapseCharHead(a, b);
    }
  }

  /** One unfolding of CollapseSpaces at a leading whitespace character. */
  lemma CollapseSpaceHead(a: string, b: string, t: string)
    requires a != [] && IsJsSpace(a[0]) && t == TrimStart(a)
    requires TrimStart(a + b) == t + b
    requires CollapseSpaces(t + b) == CollapseSpaces(t) + CollapseSpaces(b)
    ensures CollapseSpaces(a + b) == CollapseSpaces(a) + CollapseSpaces(b)
  {
    assert (a + b)[0] == a[0];
    AppendAssoc("_", CollapseSpaces(t), CollapseSpaces(b));
  }

  /** One unfolding of CollapseSpaces at a leading non-space character. */
  lemma CollapseCharHead(a: string, b: string)
    requires a != [] && !IsJsSpace(a[0])
    requires CollapseSpaces(a[1..] + b) == CollapseSpaces(a[1..]) + CollapseSpaces(b)
    ensures CollapseSpaces(a + b) == CollapseSpaces(a) + CollapseSpaces(b)
  {
    assert (a + b)[0] == a[0];
    assert (a + b)[1..] == a[1..] + b;
    AppendAssoc([a[0]], CollapseSpaces(a[1..]), CollapseSpaces(b));
  }

  /** Concatenation regroups. */
  lemma AppendAssoc(c: string, x: string, y: string)
    ensures (c + x) + y == c + (x + y)
  {
  }

  /** Each maximal whitespace run, however long, becomes exactly one `_`:
      with x not ending and y not starting in whitespace, collapsing
      `x + ws + y` gives the collapse of x, one `_`, and the collapse of y. */
  lemma CollapseRun(x: string, ws: string, y: string)
    requires x == [] || !IsJsSpace(x[|x| - 1])
    requires ws != [] && forall i :: 0 <= i < |ws| ==> IsJsSpace(ws[i])
    requires y == [] || !IsJsSpace(y[0])
    ensures CollapseSpaces(x + (ws + y)) == CollapseSpaces(x) + ("_" + CollapseSpaces(y))
  {
    CollapseAppend(x, ws + y);
    assert (ws + y)[0] == ws[0];
    TrimStartOfRun(ws, y);
  }

  lemma {:induction false} NonSpacesAppend(a: string, b: string)
    ensures NonSpaces(a + b) == NonSpaces(a) + NonSpaces(b)
    decreases |a|
  {
    if a == [] {
      assert a + b == b;
    } else {
      assert (a + b)[0] == a[0];
      assert (a + b)[1..] == a[1..] + b;
      NonSpacesAppend(a[1..], b);
      var h := if IsJsSpace(a[0]) then [] else [a[0]];
      assert NonSpaces(a + b) == h + (NonSpaces(a[1..]) + NonSpaces(b));
      assert NonSpaces(a) == h + NonSpaces(a[1..]);
    }
  }

  lemma {:induction false} NonSpacesOfSpaces(s: string)
    requires forall i :: 0 <= i < |s| ==> IsJsSpace(s[i])
    ensures NonSpaces(s) == []
    decreases |s|
  {
    if s != [] {
      NonSpacesOfSpaces(s[1..]);
    }
  }

  /** Stripping leaves no doubled separator and no character from outside the set. */
  lemma {:induction false} CollapseShape(s: string)
    requires forall i :: 0 <= i < |s| ==> IsKeptChar(s[i]) && s[i] != '_'
    ensures forall i :: 0 <= i < |CollapseSpaces(s)| ==> IsTitleChar(CollapseSpaces(s)[i])
    ensures forall i :: 0 <= i && i + 1 < |CollapseSpaces(s)| ==>
              !(CollapseSpaces(s)[i] == '_' && CollapseSpaces(s)[i + 1] == '_')
    ensures CollapseSpaces(s) != [] && CollapseSpaces(s)[0] == '_' ==> s != [] && IsJsSpace(s[0])
    decreases |s|
  {
    if s == [] {
    } else if IsJsSpace(s[0]) {
      var t := TrimStart(s);
      assert t == s[|s| - |t|..];
      CollapseShape(t);
      assert t == [] || !IsJsSpace(t[0]);
    } else {
      CollapseShape(s[1..]);
    }
  }

  /** Collapsing keeps every non-whitespace character in order: removing the
      separators from the output gives the input without its whitespace. */
  lemma {:induction false} CollapseKeepsText(s: string)
    requires forall i :: 0 <= i < |s| ==> s[i] != '_'
    ensures NonUnderscores(CollapseSpaces(s)) == NonSpaces(s)
    decreases |s|
  {
    if s == [] {
    } else if IsJsSpace(s[0]) {
      var t := TrimStart(s);
      var dropped := s[..|s| - |t|];
      assert s == dropped + t;
      NonSpacesOfSpaces(dropped);
      NonSpacesAppend(dropped, t);
      CollapseKeepsText(t);
      assert ("_" + CollapseSpaces(t))[1..] == CollapseSpaces(t);
    } else {
      CollapseKeepsText(s[1..]);
      assert ([s[0]] + CollapseSpaces(s[1..]))[1..] == CollapseSpaces(s[1..]);
    }
  }

  /** A sanitised title uses only `[A-Za-z0-9_-]`, never two `_` in a row, and
      at most 150 characters. */
  lemma SanitizeShape(stdout: string)
    ensures |Sanitize(stdout)| <= MaxTitleLength
    ensures forall i :: 0 <= i < |Sanitize(stdout)| ==> IsTitleChar(Sanitize(stdout)[i])
    ensures forall i :: 0 <= i && i + 1 < |Sanitize(stdout)| ==>
              !(Sanitize(stdout)[i] == '_' && Sanitize(stdout)[i + 1] == '_')
  {
    var stripped := StripDisallowed(Trim(stdout));
    CollapseShape(stripped);
    var c := CollapseSpaces(stripped);
    assert Sanitize(stdout) == c[..|Sanitize(stdout)|];
  }

  /** A number below 10^16, such as any millisecond time a JavaScript date
      can hold (at most 8.64e15), prints with at most 16 digits. */
  lemma FallbackLength(timestamp: nat)
    requires timestamp <= 8_640_000_000_000_000
    ensures |FallbackTitle(timestamp)| <= 26
  {
    assert Pow10(16) == 10_000_000_000_000_000 by {
      assert Pow10(8) == 100_000_000;
      assert Pow10(16) == Pow10(8) * Pow10(8) by { Pow10Add(8, 8); }
    }
    NatToStringLength(timestamp, 16);
  }

  lemma {:induction false} Pow10Add(a: nat, b: nat)
    ensures Pow10(a + b) == Pow10(a) * Pow10(b)
    decreases a
  {
    if a > 0 {
      Pow10Add(a - 1, b);
    }
  }

  /** The chosen title is never empty; when it comes from the lookup it is
      the sanitised text, otherwise it is exactly `converted_<timestamp>`. */
  lemma ResolveTitleSpec(lookup: Option<string>, timestamp: nat)
    ensures ResolveTitle(lookup, timestamp) != ""
    ensures lookup.None? ==> ResolveTitle(lookup, timestamp) == FallbackTitle(timestamp)
    ensures lookup.Some? && Sanitize(lookup.value) != "" ==>
              ResolveTitle(lookup, timestamp) == Sanitize(lookup.value)
    ensures lookup.Some? && Sanitize(lookup.value) == "" ==>
              ResolveTitle(lookup, timestamp) == FallbackTitle(timestamp)
    ensures forall i :: 0 <= i < |ResolveTitle(lookup, timestamp)| ==> IsTitleChar(ResolveTitle(lookup, timestamp)[i])
  {
    var t := ResolveTitle(lookup, timestamp);
    if lookup.Some? && Sanitize(lookup.value) != "" {
      SanitizeShape(lookup.value);
    } else {
      var digits := NatToString(timestamp);
      assert t == "converted_" + digits;
      assert forall i :: 10 <= i < |t| ==> t[i] == digits[i - 10];
    }
  }
}
