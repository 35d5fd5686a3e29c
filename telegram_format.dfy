/**
 * `sanitize_telegram_html` (telegram_format.py): a fixed chain of rewrites
 * that turns Markdown emphasis into Telegram HTML tags, drops heading and
 * bullet prefixes, deletes every remaining Markdown marker and trims the
 * result. Each regular-expression substitution is a left-to-right scan that,
 * like `re.sub`, tries a match at each position and resumes after it.
 */
module TelegramFormat {

  import opened Optional

  /** Python's `str.isspace`, which is also what `\s` and `str.strip()` use. */
  predicate IsSpace(c: char)
  {
    var n := c as int;
    || 9 <= n <= 13 || 28 <= n <= 32
    || n == 0x85 || n == 0xA0 || n == 0x1680
    || 0x2000 <= n <= 0x200A
    || n == 0x2028 || n == 0x2029 || n == 0x202F || n == 0x205F || n == 0x3000
  }

  const Bullet: char := '\U{2022}'

  /** The characters the final pass deletes. */
  const Markers: set<char> := {'`', '*', '_', '#'}

  predicate StartsWith(s: string, p: string)
  {
    |p| <= |s| && s[..|p|] == p
  }

  // ---------------------------------------------------------------------------
  // Plain string operations.

  /** `s.replace(pat, rep)`: non-overlapping occurrences, left to right. */
  function Replace(s: string, pat: string, rep: string): string
    requires pat != []
    decreases |s|
  {
    if |s| < |pat| then s
    else if s[..|pat|] == pat then rep + Replace(s[|pat|..], pat, rep)
    else [s[0]] + Replace(s[1..], pat, rep)
  }

  /** `s` with every character of `drop` deleted. */
  function Without(s: string, drop: set<char>): (r: string)
    ensures forall c :: c in r ==> c in s && c !in drop
    decreases |s|
  {
    if s == [] then []
    else (if s[0] in drop then [] else [s[0]]) + Without(s[1..], drop)
  }

  function TrimStart(s: string): (r: string)
    ensures |r| <= |s| && r == s[|s| - |r|..]
    ensures forall k :: 0 <= k < |s| - |r| ==> IsSpace(s[k])
    ensures r != [] ==> !IsSpace(r[0])
    decreases |s|
  {
    if s != [] && IsSpace(s[0]) then TrimStart(s[1..]) else s
  }

  function TrimEnd(s: string): (r: string)
    ensures |r| <= |s| && r == s[..|r|]
    ensures forall k :: |r| <= k < |s| ==> IsSpace(s[k])
    ensures r != [] ==> !IsSpace(r[|r| - 1])
    decreases |s|
  {
    if s != [] && IsSpace(s[|s| - 1]) then TrimEnd(s[..|s| - 1]) else s
  }

  /**
   * `s.strip()`: the longest slice of `s` that neither starts nor ends with
   * whitespace, everything cut off being whitespace.
   */
  function Trim(s: string): (r: string)
    ensures exists i, j :: (0 <= i <= j <= |s| && r == s[i..j]
      && (forall k :: 0 <= k < i ==> IsSpace(s[k]))
      && (forall k :: j <= k < |s| ==> IsSpace(s[k])))
    ensures r != [] ==> !IsSpace(r[0]) && !IsSpace(r[|r| - 1])
    ensures forall c :: c in r ==> c in s
  {
    var t := TrimStart(s);
    var r := TrimEnd(t);
    var i := |s| - |t|;
    assert r == s[i..i + |r|];
    r
  }

  // ---------------------------------------------------------------------------
  // The substitution passes.

  /**
   * Where the lazy group of `D(.+?)D` ends when the match starts at 0 and the
   * group is tried as s[|D|..j], s[|D|..j+1], ...: the first end that is
   * followed by D, the group never containing a newline.
   */
  function CloseAt(s: string, delim: string, j: nat): (r: Option<nat>)
    requires j >= 1
    ensures r.Some? ==> j <= r.value <= |s| && StartsWith(s[r.value..], delim)
    decreases |s| - j
  {
    if j > |s| || s[j - 1] == '\n' then None
    else if StartsWith(s[j..], delim) then Some(j)
    else CloseAt(s, delim, j + 1)
  }

  /** `re.sub(D(.+?)D, open + group + close, s)` for a delimiter D such as `**`. */
  function Emphasis(s: string, delim: string, open: string, close: string): string
    requires delim != []
    decreases |s|
  {
    if s == [] then []
    else if StartsWith(s, delim) && CloseAt(s, delim, |delim| + 1).Some? then
      var j := CloseAt(s, delim, |delim| + 1).value;
      open + s[|delim|..j] + close + Emphasis(s[j + |delim|..], delim, open, close)
    else [s[0]] + Emphasis(s[1..], delim, open, close)
  }

  /**
   * Where the lazy group of the italic pattern ends, for a match starting at
   * 0: the first marker at j >= 2 whose preceding character is not
   * whitespace, the group s[1..j] never containing a newline.
   */
  function ItalicClose(s: string, marker: char, j: nat): (r: Option<nat>)
    requires j >= 1
    ensures r.Some? ==> j <= r.value < |s| && s[r.value] == marker
    decreases |s| - j
  {
    if j >= |s| || s[j - 1] == '\n' then None
    else if s[j] == marker && !IsSpace(s[j - 1]) then Some(j)
    else ItalicClose(s, marker, j + 1)
  }

  /**
   * `re.sub(r"(?<!\\)M(?!\s)(.+?)(?<!\s)M", "<i>\1</i>", s)` for a marker M;
   * `before` is the character preceding `s` in the scanned text.
   */
  function Italic(s: string, marker: char, before: Option<char>): string
    decreases |s|
  {
    if s == [] then []
    else if s[0] == marker && before != Some('\\') && |s| >= 2 && !IsSpace(s[1])
         && ItalicClose(s, marker, 2).Some? then
      var j := ItalicClose(s, marker, 2).value;
      "<i>" + s[1..j] + "</i>" + Italic(s[j + 1..], marker, Some(marker))
    else [s[0]] + Italic(s[1..], marker, Some(s[0]))
  }

  /** The end of the whitespace run starting at i. */
  function SpaceRunEnd(s: string, i: nat): (r: nat)
    requires i <= |s|
    ensures i <= r <= |s|
    ensures forall k :: i <= k < r ==> IsSpace(s[k])
    ensures r < |s| ==> !IsSpace(s[r])
    decreases |s| - i
  {
    if i < |s| && IsSpace(s[i]) then SpaceRunEnd(s, i + 1) else i
  }

  /** The end of the run of at most six `#` starting at i (`#{1,6}`, greedy). */
  function HashRunEnd(s: string, i: nat, count: nat): (r: nat)
    requires i <= |s|
    ensures i <= r <= |s|
    ensures forall k :: i <= k < r ==> s[k] == '#'
    decreases |s| - i
  {
    if i < |s| && s[i] == '#' && count < 6 then HashRunEnd(s, i + 1, count + 1) else i
  }

  predicate IsBulletMark(c: char)
  {
    c == '-' || c == '*' || c == Bullet
  }

  /** The end of the run of bullet marks starting at i (`[-*•]+`, greedy). */
  function MarkRunEnd(s: string, i: nat): (r: nat)
    requires i <= |s|
    ensures i <= r <= |s|
    ensures forall k :: i <= k < r ==> IsBulletMark(s[k])
    decreases |s| - i
  {
    if i < |s| && IsBulletMark(s[i]) then MarkRunEnd(s, i + 1) else i
  }

  /**
   * `re.sub(r"(?m)^\s*#{1,6}\s*", "", s)`; `lineStart` says whether the scan
   * position is at `^` (the start of the text or just after a newline).
   */
  function StripHeadings(s: string, lineStart: bool): string
    decreases |s|
  {
    if s == [] then []
    else
      var w := SpaceRunEnd(s, 0);
      if lineStart && w < |s| && s[w] == '#' then
        var e := SpaceRunEnd(s, HashRunEnd(s, w, 0));
        assert s[w] == '#' && e > w;
        StripHeadings(s[e..], s[e - 1] == '\n')
      else [s[0]] + StripHeadings(s[1..], s[0] == '\n')
  }

  /** `re.sub(r"(?m)^\s*[-*•]+\s+", "", s)`, with `lineStart` as for StripHeadings. */
  function StripBullets(s: string, lineStart: bool): string
    decreases |s|
  {
    if s == [] then []
    else
      var w := SpaceRunEnd(s, 0);
      var m := MarkRunEnd(s, w);
      var e := SpaceRunEnd(s, m);
      if lineStart && m > w && e > m then StripBullets(s[e..], s[e - 1] == '\n')
      else [s[0]] + StripBullets(s[1..], s[0] == '\n')
  }

  /** The seven `replace` calls that delete code fences, backticks and emphasis and heading markers. */
  function MarkerDeletion(t: string): string
  {
    var t1 := Replace(Replace(t, "```", ""), "`", "");
    var t2 := Replace(Replace(Replace(Replace(t1, "**", ""), "__", ""), "*", ""), "_", "");
    Replace(t2, "#", "")
  }

  /** `***x***` and `___x___` become `<b><i>x</i></b>`. */
  function BoldItalicPass(t: string): string
  {
    Emphasis(Emphasis(t, "***", "<b><i>", "</i></b>"), "___", "<b><i>", "</i></b>")
  }

  /** `**x**` and `__x__` become `<b>x</b>`. */
  function BoldPass(t: string): string
  {
    Emphasis(Emphasis(t, "**", "<b>", "</b>"), "__", "<b>", "</b>")
  }

  /** `*x*` and `_x_` become `<i>x</i>`. */
  function ItalicPass(t: string): string
  {
    Italic(Italic(t, '*', None), '_', None)
  }

  /** The emphasis conversions, bold-italic first, then bold, then italic. */
  function ConvertEmphasis(t: string): string
  {
    ItalicPass(BoldPass(BoldItalicPass(t)))
  }

  /** What follows the conversions: prefixes stripped, markers deleted, whitespace trimmed. */
  function Finish(t: string): string
  {
    Trim(MarkerDeletion(StripBullets(StripHeadings(t, true), true)))
  }

  /** `sanitize_telegram_html`. */
  function Sanitize(message: string): string
  {
    if message == [] then message
    else Finish(ConvertEmphasis(Replace(message, "\r\n", "\n")))
  }

  // ---------------------------------------------------------------------------
  // Deleting characters.

  lemma {:induction false} WithoutAppend(a: string, b: string, drop: set<char>)
    ensures Without(a + b, drop) == Without(a, drop) + Without(b, drop)
    decreases |a|
  {
    if a == [] {
      assert a + b == b;
    } else {
      assert (a + b)[1..] == a[1..] + b;
      WithoutAppend(a[1..], b, drop);
    }
  }

  lemma {:induction false} WithoutWithout(s: string, a: set<char>, b: set<char>)
    ensures Without(Without(s, a), b) == Without(s, a + b)
    decreases |s|
  {
    if s != [] {
      var head := if s[0] in a then [] else [s[0]];
      WithoutAppend(head, Without(s[1..], a), b);
      WithoutWithout(s[1..], a, b);
    }
  }

  lemma {:induction false} WithoutNothing(s: string, drop: set<char>)
    requires forall c :: c in s ==> c !in drop
    ensures Without(s, drop) == s
    decreases |s|
  {
    if s != [] {
      WithoutNothing(s[1..], drop);
    }
  }

  lemma {:induction false} WithoutOfDropped(w: string, drop: set<char>)
    requires forall c :: c in w ==> c in drop
    ensures Without(w, drop) == []
    decreases |w|
  {
    if w != [] {
      WithoutOfDropped(w[1..], drop);
    }
  }

  /** Deleting every occurrence of a word made of dropped characters is invisible once they are dropped. */
  lemma {:induction false} ReplaceDropped(s: string, w: string, drop: set<char>)
    requires w != []
    requires forall c :: c in w ==> c in drop
    ensures Without(Replace(s, w, ""), drop) == Without(s, drop)
    decreases |s|
  {
    if |s| >= |w| {
      if s[..|w|] == w {
        assert s == w + s[|w|..];
        WithoutAppend(w, s[|w|..], drop);
        WithoutOfDropped(w, drop);
        ReplaceDropped(s[|w|..], w, drop);
        assert "" + Replace(s[|w|..], w, "") == Replace(s[|w|..], w, "");
      } else {
        assert s == [s[0]] + s[1..];
        WithoutAppend([s[0]], s[1..], drop);
        WithoutAppend([s[0]], Replace(s[1..], w, ""), drop);
        ReplaceDropped(s[1..], w, drop);
      }
    }
  }

  /** Replacing a single character by nothing deletes it. */
  lemma {:induction false} ReplaceCharIsWithout(s: string, c: char)
    ensures Replace(s, [c], "") == Without(s, {c})
    decreases |s|
  {
    if s != [] {
      ReplaceCharIsWithout(s[1..], c);
      if s[0] == c {
        assert s[..1] == [c];
      } else {
        assert s[..1] != [c];
      }
    }
  }

  /** The seven replacements delete exactly the characters `` ` ``, `*`, `_` and `#`. */
  lemma MarkerDeletionIsWithout(t: string)
    ensures MarkerDeletion(t) == Without(t, Markers)
  {
    var r1 := Replace(t, "```", "");
    var r2 := Replace(r1, "`", "");
    var r3 := Replace(r2, "**", "");
    var r4 := Replace(r3, "__", "");
    var r5 := Replace(r4, "*", "");
    var r6 := Replace(r5, "_", "");
    var r7 := Replace(r6, "#", "");
    var emphasis: set<char> := {'*', '_', '#'};
    ReplaceCharIsWithout(r1, '`');
    ReplaceCharIsWithout(r4, '*');
    ReplaceCharIsWithout(r5, '_');
    ReplaceCharIsWithout(r6, '#');
    WithoutWithout(r4, {'*'}, {'_'});
    WithoutWithout(r4, {'*'} + {'_'}, {'#'});
    assert {'*'} + {'_'} + {'#'} == emphasis;
    ReplaceDropped(r3, "__", emphasis);
    ReplaceDropped(r2, "**", emphasis);
    WithoutWithout(r1, {'`'}, emphasis);
    assert {'`'} + emphasis == Markers;
    ReplaceDropped(t, "```", Markers);
  }

  // ---------------------------------------------------------------------------
  // The properties of the sanitiser.

  /** An empty message comes back unchanged. */
  lemma EmptyUnchanged()
    ensures Sanitize("") == ""
  {
  }

  /** No backtick, asterisk, underscore or hash survives, and the result is trimmed. */
  lemma NoMarkersRemain(message: string)
    ensures forall c :: c in Sanitize(message) ==> c !in Markers
    ensures Sanitize(message) != [] ==>
      !IsSpace(Sanitize(message)[0]) && !IsSpace(Sanitize(message)[|Sanitize(message)| - 1])
  {
    if message != [] {
      var converted := ConvertEmphasis(Replace(message, "\r\n", "\n"));
      MarkerDeletionIsWithout(StripBullets(StripHeadings(converted, true), true));
    }
  }

  // Passes that leave text without their trigger characters alone.

  lemma {:induction false} ReplaceAbsent(s: string, pat: string, rep: string)
    requires pat != []
    requires pat[0] !in s
    ensures Replace(s, pat, rep) == s
    decreases |s|
  {
    if |s| >= |pat| {
      assert s[0] in s;
      assert s[..|pat|][0] == s[0];
      ReplaceAbsent(s[1..], pat, rep);
    }
  }

  /** A delimiter that never starts anywhere in the text converts nothing. */
  lemma {:induction false} EmphasisNoOpening(s: string, delim: string, open: string, close: string)
    requires delim != []
    requires forall i :: 0 <= i <= |s| ==> !StartsWith(s[i..], delim)
    ensures Emphasis(s, delim, open, close) == s
    decreases |s|
  {
    if s != [] {
      assert !StartsWith(s[0..], delim);
      assert s[0..] == s;
      forall i | 0 <= i <= |s[1..]|
        ensures !StartsWith(s[1..][i..], delim)
      {
        assert s[1..][i..] == s[i + 1..];
      }
      EmphasisNoOpening(s[1..], delim, open, close);
    }
  }

  lemma EmphasisAbsent(s: string, delim: string, open: string, close: string)
    requires delim != []
    requires delim[0] !in s
    ensures Emphasis(s, delim, open, close) == s
  {
    forall i | 0 <= i <= |s|
      ensures !StartsWith(s[i..], delim)
    {
      if i < |s| {
        assert s[i..][0] == s[i];
        assert s[i] in s;
      }
    }
    EmphasisNoOpening(s, delim, open, close);
  }

  lemma {:induction false} ItalicAbsent(s: string, marker: char, before: Option<char>)
    requires marker !in s
    ensures Italic(s, marker, before) == s
    decreases |s|
  {
    if s != [] {
      assert s[0] in s;
      ItalicAbsent(s[1..], marker, Some(s[0]));
    }
  }

  lemma BoldPassesAbsent(s: string)
    requires '*' !in s && '_' !in s
    ensures BoldItalicPass(s) == s && BoldPass(s) == s
  {
    EmphasisAbsent(s, "***", "<b><i>", "</i></b>");
    EmphasisAbsent(s, "___", "<b><i>", "</i></b>");
    EmphasisAbsent(s, "**", "<b>", "</b>");
    EmphasisAbsent(s, "__", "<b>", "</b>");
  }

  lemma ItalicPassAbsent(s: string)
    requires '*' !in s && '_' !in s
    ensures ItalicPass(s) == s
  {
    ItalicAbsent(s, '*', None);
    ItalicAbsent(s, '_', None);
  }

  lemma ConvertEmphasisAbsent(s: string)
    requires '*' !in s && '_' !in s
    ensures ConvertEmphasis(s) == s
  {
    BoldPassesAbsent(s);
    ItalicPassAbsent(s);
  }

  lemma {:induction false} HeadingsAbsent(s: string, lineStart: bool)
    requires '#' !in s
    ensures StripHeadings(s, lineStart) == s
    decreases |s|
  {
    if s != [] {
      var w := SpaceRunEnd(s, 0);
      if w < |s| {
        assert s[w] in s;
      }
      HeadingsAbsent(s[1..], s[0] == '\n');
    }
  }

  lemma {:induction false} BulletsAbsent(s: string, lineStart: bool)
    requires '-' !in s && '*' !in s && Bullet !in s
    ensures StripBullets(s, lineStart) == s
    decreases |s|
  {
    if s != [] {
      var w := SpaceRunEnd(s, 0);
      if w < |s| {
        assert s[w] in s;
      }
      assert MarkRunEnd(s, w) == w;
      BulletsAbsent(s[1..], s[0] == '\n');
    }
  }

  /** Away from a line start, and with no newline ahead, no heading prefix is stripped. */
  lemma {:induction false} HeadingsMidLine(s: string)
    requires '\n' !in s
    ensures StripHeadings(s, false) == s
    decreases |s|
  {
    if s != [] {
      assert s[0] in s;
      HeadingsMidLine(s[1..]);
    }
  }

  /** Away from a line start, and with no newline ahead, no bullet prefix is stripped. */
  lemma {:induction false} BulletsMidLine(s: string)
    requires '\n' !in s
    ensures StripBullets(s, false) == s
    decreases |s|
  {
    if s != [] {
      assert s[0] in s;
      BulletsMidLine(s[1..]);
    }
  }

  /** A line that starts with a character that is neither whitespace, `#` nor a bullet mark has no prefix to strip. */
  lemma NoPrefixOnLine(s: string)
    requires s != [] && !IsSpace(s[0]) && s[0] != '#' && !IsBulletMark(s[0])
    requires '\n' !in s
    ensures StripHeadings(s, true) == s
    ensures StripBullets(s, true) == s
  {
    assert s[0] in s;
    assert SpaceRunEnd(s, 0) == 0;
    assert MarkRunEnd(s, 0) == 0;
    HeadingsMidLine(s[1..]);
    BulletsMidLine(s[1..]);
  }

  lemma TrimUnchanged(s: string)
    requires s != [] && !IsSpace(s[0]) && !IsSpace(s[|s| - 1])
    ensures Trim(s) == s
  {
  }

  /** With no heading or bullet character present, finishing only deletes markers and trims. */
  lemma FinishUnprefixed(t: string)
    requires '#' !in t && '-' !in t && '*' !in t && Bullet !in t
    ensures Finish(t) == Trim(Without(t, Markers))
  {
    HeadingsAbsent(t, true);
    BulletsAbsent(t, true);
    MarkerDeletionIsWithout(t);
  }

  /**
   * A message with no `*`, `_`, `#`, `-`, `•` or carriage return only loses its
   * backticks and surrounding whitespace.
   */
  lemma Unemphasised(message: string)
    requires '*' !in message && '_' !in message && '#' !in message
    requires '-' !in message && Bullet !in message && '\r' !in message
    ensures Sanitize(message) == Trim(Without(message, {'`'}))
  {
    if message != [] {
      UnconvertedReachesFinish(message);
      FinishUnprefixed(message);
      OnlyBackticksDeleted(message);
    }
  }

  lemma UnconvertedReachesFinish(message: string)
    requires message != [] && '*' !in message && '_' !in message && '\r' !in message
    ensures Sanitize(message) == Finish(message)
  {
    ReplaceAbsent(message, "\r\n", "\n");
    ConvertEmphasisAbsent(message);
  }

  lemma OnlyBackticksDeleted(message: string)
    requires '*' !in message && '_' !in message && '#' !in message
    ensures Without(message, Markers) == Without(message, {'`'})
  {
    var kept := Without(message, {'`'});
    WithoutNothing(kept, {'*', '_', '#'});
    WithoutWithout(message, {'`'}, {'*', '_', '#'});
    assert {'`'} + {'*', '_', '#'} == Markers;
  }

  /** Plain text (none of `*`, `_`, `` ` ``, `#`, `-`, `•`, `\r`) comes back trimmed and otherwise unchanged. */
  lemma PlainTextTrimmed(message: string)
    requires '*' !in message && '_' !in message && '`' !in message && '#' !in message
    requires '-' !in message && Bullet !in message && '\r' !in message
    ensures Sanitize(message) == Trim(message)
  {
    Unemphasised(message);
    WithoutNothing(message, {'`'});
  }

  /** Text in backticks or a code fence keeps its content. */
  lemma BacktickContentKept(fence: string, x: string)
    requires fence == "`" || fence == "```"
    requires '*' !in x && '_' !in x && '`' !in x && '#' !in x
    requires '-' !in x && Bullet !in x && '\r' !in x
    ensures Sanitize(fence + x + fence) == Trim(x)
  {
    FencedChars(fence, x);
    Unemphasised(fence + x + fence);
    BackticksDropped(fence, x);
  }

  lemma FencedChars(fence: string, x: string)
    requires fence == "`" || fence == "```"
    requires '*' !in x && '_' !in x && '#' !in x && '-' !in x && Bullet !in x && '\r' !in x
    ensures var s := fence + x + fence;
      '*' !in s && '_' !in s && '#' !in s && '-' !in s && Bullet !in s && '\r' !in s
  {
    assert forall c :: c in fence ==> c == '`';
    assert forall c :: c in fence + x + fence ==> c in x || c == '`';
  }

  lemma BackticksDropped(fence: string, x: string)
    requires forall c :: c in fence ==> c == '`'
    requires '`' !in x
    ensures Without(fence + x + fence, {'`'}) == x
  {
    WithoutOfDropped(fence, {'`'});
    assert Without(fence + x, {'`'}) == x by {
      WithoutNothing(x, {'`'});
      WithoutAppend(fence, x, {'`'});
    }
    WithoutAppend(fence + x, fence, {'`'});
    assert x + [] == x;
  }

  // Conversion of emphasis.

  /** Ordinary text for the inside of an emphasis: non-empty, single-line, without markers. */
  predicate Inner(x: string)
  {
    x != [] && forall c :: c in x ==> c !in Markers && c != '\n' && c != '\r'
  }

  /** Text the tail of the chain leaves alone: no marker, no newline. */
  predicate Clean(t: string)
  {
    forall c :: c in t ==> c !in Markers && c != '\n'
  }

  lemma CleanConcat(a: string, b: string)
    requires Clean(a) && Clean(b)
    ensures Clean(a + b)
  {
  }

  /** The tags the conversions insert hold no marker and no newline. */
  lemma TagsClean()
    ensures Clean("<b><i>") && Clean("</i></b>")
    ensures Clean("<b>") && Clean("</b>") && Clean("<i>") && Clean("</i>")
  {
  }

  /** Clean inner text wrapped in clean tags is clean. */
  lemma WrappedClean(open: string, x: string, close: string)
    requires Clean(open) && Inner(x) && Clean(close)
    ensures Clean(open + x + close)
  {
    CleanConcat(open, x);
    CleanConcat(open + x, close);
  }

  /** CloseAt stops at the first position followed by the delimiter. */
  lemma {:induction false} CloseAtFirst(s: string, delim: string, j: nat, k: nat)
    requires 1 <= j <= k <= |s|
    requires forall i :: j - 1 <= i < k ==> s[i] != '\n'
    requires forall i :: j <= i < k ==> !StartsWith(s[i..], delim)
    requires StartsWith(s[k..], delim)
    ensures CloseAt(s, delim, j) == Some(k)
    decreases k - j
  {
    if j < k {
      CloseAtFirst(s, delim, j + 1, k);
    }
  }

  /** ItalicClose stops at the first marker preceded by a non-space. */
  lemma {:induction false} ItalicCloseFirst(s: string, marker: char, j: nat, k: nat)
    requires 1 <= j <= k < |s|
    requires forall i :: j - 1 <= i < k ==> s[i] != '\n'
    requires forall i :: j <= i < k ==> s[i] != marker
    requires s[k] == marker && !IsSpace(s[k - 1])
    ensures ItalicClose(s, marker, j) == Some(k)
    decreases k - j
  {
    if j < k {
      ItalicCloseFirst(s, marker, j + 1, k);
    }
  }

  /** One delimited span `D x D` is replaced by `open x close`. */
  lemma DelimitedSpan(delim: string, x: string, open: string, close: string)
    requires delim != [] && x != []
    requires delim[0] !in x && '\n' !in x
    ensures Emphasis(delim + x + delim, delim, open, close) == open + x + close
  {
    var s := delim + x + delim;
    var d := |delim|;
    assert forall i :: d <= i < d + |x| ==> s[i] == x[i - d];
    forall i | d <= i < d + |x|
      ensures !StartsWith(s[i..], delim) && s[i] != '\n'
    {
      assert s[i..][0] == x[i - d];
      assert x[i - d] in x;
    }
    assert s[d + |x|..] == delim;
    assert s[..d] == delim;
    CloseAtFirst(s, delim, d + 1, d + |x|);
    assert s[d..d + |x|] == x;
    assert s[d + |x| + d..] == [];
  }

  /** Tag-wrapped clean text passes every later pass unchanged. */
  lemma WrappedUnchanged(out: string)
    requires out != [] && out[0] == '<' && out[|out| - 1] == '>'
    requires Clean(out)
    ensures BoldItalicPass(out) == out && BoldPass(out) == out && ItalicPass(out) == out
    ensures Finish(out) == out
  {
    BoldPassesAbsent(out);
    ItalicPassAbsent(out);
    WrappedFinished(out);
  }

  lemma WrappedFinished(out: string)
    requires out != [] && out[0] == '<' && out[|out| - 1] == '>'
    requires Clean(out)
    ensures Finish(out) == out
  {
    assert out[0] in out;
    NoPrefixOnLine(out);
    MarkerDeletionIsWithout(out);
    WithoutNothing(out, Markers);
    TrimUnchanged(out);
  }

  /** `***x***` becomes `<b><i>x</i></b>`. */
  lemma BoldItalicConverted(x: string)
    requires Inner(x)
    ensures Sanitize("***" + x + "***") == "<b><i>" + x + "</i></b>"
  {
    var s := "***" + x + "***";
    var out := "<b><i>" + x + "</i></b>";
    assert '\r' !in s;
    ReplaceAbsent(s, "\r\n", "\n");
    DelimitedSpan("***", x, "<b><i>", "</i></b>");
    TagsClean();
    WrappedClean("<b><i>", x, "</i></b>");
    WrappedUnchanged(out);
    EmphasisAbsent(out, "___", "<b><i>", "</i></b>");
    assert BoldItalicPass(s) == out;
    assert ConvertEmphasis(s) == out;
  }

  /** `**x**` holds no run of three asterisks, so the bold-italic pass leaves it alone. */
  lemma BoldNotBoldItalic(x: string)
    requires Inner(x)
    ensures BoldItalicPass("**" + x + "**") == "**" + x + "**"
  {
    var s := "**" + x + "**";
    assert s[2] == x[0] && x[0] in x;
    forall i | 0 <= i <= |s|
      ensures !StartsWith(s[i..], "***")
    {
      if 2 <= i < 2 + |x| {
        assert s[i] == x[i - 2] && x[i - 2] in x;
      }
    }
    EmphasisNoOpening(s, "***", "<b><i>", "</i></b>");
    EmphasisAbsent(s, "___", "<b><i>", "</i></b>");
  }

  /** `**x**` becomes `<b>x</b>`. */
  lemma BoldConverted(x: string)
    requires Inner(x)
    ensures Sanitize("**" + x + "**") == "<b>" + x + "</b>"
  {
    var s := "**" + x + "**";
    var out := "<b>" + x + "</b>";
    assert '\r' !in s;
    ReplaceAbsent(s, "\r\n", "\n");
    BoldNotBoldItalic(x);
    DelimitedSpan("**", x, "<b>", "</b>");
    TagsClean();
    WrappedClean("<b>", x, "</b>");
    WrappedUnchanged(out);
    EmphasisAbsent(out, "__", "<b>", "</b>");
    assert BoldPass(s) == out;
    assert ConvertEmphasis(s) == out;
  }

  /** `*x*` holds no two adjacent asterisks, so neither bold pass touches it. */
  lemma ItalicNotBold(x: string)
    requires Inner(x)
    ensures BoldItalicPass("*" + x + "*") == "*" + x + "*"
    ensures BoldPass("*" + x + "*") == "*" + x + "*"
  {
    var s := "*" + x + "*";
    assert s[1] == x[0] && x[0] in x;
    forall i | 0 <= i <= |s|
      ensures !StartsWith(s[i..], "**") && !StartsWith(s[i..], "***")
    {
      if 1 <= i < 1 + |x| {
        assert s[i] == x[i - 1] && x[i - 1] in x;
      }
    }
    EmphasisNoOpening(s, "***", "<b><i>", "</i></b>");
    EmphasisAbsent(s, "___", "<b><i>", "</i></b>");
    EmphasisNoOpening(s, "**", "<b>", "</b>");
    EmphasisAbsent(s, "__", "<b>", "</b>");
  }

  /** The italic scan turns `*x*` into `<i>x</i>`. */
  lemma ItalicSpan(x: string)
    requires Inner(x)
    requires !IsSpace(x[0]) && !IsSpace(x[|x| - 1])
    ensures Italic("*" + x + "*", '*', None) == "<i>" + x + "</i>"
  {
    var s := "*" + x + "*";
    assert forall i :: 1 <= i < 1 + |x| ==> s[i] == x[i - 1];
    forall i | 1 <= i < 1 + |x|
      ensures s[i] != '\n' && s[i] != '*'
    {
      assert x[i - 1] in x;
    }
    ItalicCloseFirst(s, '*', 2, 1 + |x|);
    assert s[1..1 + |x|] == x;
    assert s[1 + |x| + 1..] == [];
  }

  /** `*x*` becomes `<i>x</i>` when x neither starts nor ends with whitespace. */
  lemma ItalicConverted(x: string)
    requires Inner(x)
    requires !IsSpace(x[0]) && !IsSpace(x[|x| - 1])
    ensures Sanitize("*" + x + "*") == "<i>" + x + "</i>"
  {
    var s := "*" + x + "*";
    var out := "<i>" + x + "</i>";
    assert '\r' !in s;
    ReplaceAbsent(s, "\r\n", "\n");
    ItalicNotBold(x);
    ItalicSpan(x);
    TagsClean();
    WrappedClean("<i>", x, "</i>");
    WrappedUnchanged(out);
    ItalicAbsent(out, '_', None);
    assert ItalicPass(s) == out;
    assert ConvertEmphasis(s) == out;
  }

  // Heading and bullet prefixes.

  /** Leading whitespace makes no difference to the trimmed text. */
  lemma TrimLeadingSpaces(x: string, k: nat)
    requires k <= |x|
    requires forall i :: 0 <= i < k ==> IsSpace(x[i])
    ensures Trim(x[k..]) == Trim(x)
  {
    TrimStartSpaces(x, k);
  }

  lemma {:induction false} TrimStartSpaces(x: string, k: nat)
    requires k <= |x|
    requires forall i :: 0 <= i < k ==> IsSpace(x[i])
    ensures TrimStart(x[k..]) == TrimStart(x)
    decreases k
  {
    if k > 0 {
      assert TrimStart(x) == TrimStart(x[1..]);
      assert x[1..][k - 1..] == x[k..];
      TrimStartSpaces(x[1..], k - 1);
    }
  }

  function Hashes(level: nat): (r: string)
    ensures |r| == level && forall i :: 0 <= i < level ==> r[i] == '#'
  {
    seq(level, _ => '#')
  }

  lemma {:induction false} HashRunEndAt(s: string, i: nat, count: nat, k: nat)
    requires i <= k < |s| && count + (k - i) <= 6
    requires forall n :: i <= n < k ==> s[n] == '#'
    requires s[k] != '#'
    ensures HashRunEnd(s, i, count) == k
    decreases k - i
  {
    if i < k {
      HashRunEndAt(s, i + 1, count + 1, k);
    }
  }

  /** The heading pass removes the hashes and the whitespace after them. */
  lemma HeadingPrefix(s: string, level: nat) returns (e: nat)
    requires 1 <= level <= 6 && level < |s|
    requires forall n :: 0 <= n < level ==> s[n] == '#'
    requires s[level] == ' ' && forall n :: level <= n < |s| ==> s[n] != '\n'
    ensures level < e <= |s| && forall n :: level <= n < e ==> IsSpace(s[n])
    ensures StripHeadings(s, true) == s[e..]
  {
    HashRunEndAt(s, 0, 0, level);
    e := SpaceRunEnd(s, level);
    assert StripHeadings(s, true) == StripHeadings(s[e..], false);
    HeadingsMidLine(s[e..]);
  }

  /** The bullet pass removes the mark and the whitespace after it. */
  lemma BulletPrefix(mark: char, x: string) returns (j: nat)
    requires mark == '-' || mark == Bullet
    requires '\n' !in x
    ensures j <= |x| && forall n :: 0 <= n < j ==> IsSpace(x[n])
    ensures StripBullets([mark, ' '] + x, true) == x[j..]
  {
    var s := [mark, ' '] + x;
    assert forall n :: 2 <= n < |s| ==> s[n] == x[n - 2];
    assert SpaceRunEnd(s, 0) == 0;
    assert MarkRunEnd(s, 1) == 1;
    var e := SpaceRunEnd(s, 1);
    j := e - 2;
    assert s[e..] == x[j..];
    forall n | 0 <= n < j
      ensures IsSpace(x[n])
    {
      assert x[n] == s[n + 2];
    }
    if e - 1 > 1 {
      assert s[e - 1] == x[e - 3] && x[e - 3] in x;
    }
    assert StripBullets(s, true) == StripBullets(x[j..], false);
    assert forall c :: c in x[j..] ==> c in x;
    BulletsMidLine(x[j..]);
  }

  /** Clean text after stripped leading whitespace finishes as the trimmed text. */
  lemma FinishTail(x: string, j: nat)
    requires Clean(x) && j <= |x| && forall n :: 0 <= n < j ==> IsSpace(x[n])
    ensures Trim(MarkerDeletion(x[j..])) == Trim(x)
  {
    assert forall c :: c in x[j..] ==> c in x;
    MarkerDeletionIsWithout(x[j..]);
    WithoutNothing(x[j..], Markers);
    TrimLeadingSpaces(x, j);
  }

  lemma HeadingLine(level: nat, x: string) returns (j: nat)
    requires 1 <= level <= 6 && '\n' !in x
    ensures j <= |x| && forall n :: 0 <= n < j ==> IsSpace(x[n])
    ensures StripHeadings(Hashes(level) + " " + x, true) == x[j..]
  {
    var s := Hashes(level) + " " + x;
    assert forall n :: level + 1 <= n < |s| ==> s[n] == x[n - level - 1];
    forall n | level <= n < |s|
      ensures s[n] != '\n'
    {
      if n > level {
        assert x[n - level - 1] in x;
      }
    }
    var e := HeadingPrefix(s, level);
    j := e - level - 1;
    assert s[e..] == x[j..];
    forall n | 0 <= n < j
      ensures IsSpace(x[n])
    {
      assert x[n] == s[n + level + 1];
    }
  }

  /** A heading line `#…# x` (one to six hashes) keeps only its text. */
  lemma HeadingStripped(level: nat, x: string)
    requires 1 <= level <= 6
    requires Clean(x) && '\r' !in x && '-' !in x && Bullet !in x
    ensures Sanitize(Hashes(level) + " " + x) == Trim(x)
  {
    var s := Hashes(level) + " " + x;
    assert forall c :: c in s ==> c in x || c == '#' || c == ' ';
    ReplaceAbsent(s, "\r\n", "\n");
    ConvertEmphasisAbsent(s);
    assert Sanitize(s) == Finish(s);
    var j := HeadingLine(level, x);
    assert forall c :: c in x[j..] ==> c in x;
    BulletsAbsent(x[j..], true);
    FinishTail(x, j);
  }

  /** A bullet line `- x` or `• x` keeps only its text. */
  lemma BulletStripped(mark: char, x: string)
    requires mark == '-' || mark == Bullet
    requires Clean(x) && '\r' !in x
    ensures Sanitize([mark, ' '] + x) == Trim(x)
  {
    var s := [mark, ' '] + x;
    assert forall c :: c in s ==> c in x || c == mark || c == ' ';
    ReplaceAbsent(s, "\r\n", "\n");
    ConvertEmphasisAbsent(s);
    assert Sanitize(s) == Finish(s);
    HeadingsAbsent(s, true);
    var j := BulletPrefix(mark, x);
    FinishTail(x, j);
  }

  /** A bullet line whose body is clean stays clean and is already trimmed. */
  lemma BulletLineClean(mark: char, x: string)
    requires mark == '-' || mark == Bullet
    requires Clean(x) && '\r' !in x
    requires x != [] && !IsSpace(x[0]) && !IsSpace(x[|x| - 1])
    ensures Clean([mark, ' '] + x) && '\r' !in [mark, ' '] + x && Trim([mark, ' '] + x) == [mark, ' '] + x
  {
    assert Clean([mark, ' ']);
    CleanConcat([mark, ' '], x);
    TrimUnchanged([mark, ' '] + x);
  }

  /**
   * The bullet pass strips one prefix per line: a nested bullet keeps its
   * inner mark, so a bullet prefix can remain in the output ("- - x" becomes
   * "- x").
   */
  lemma NestedBulletKept(mark: char, x: string)
    requires mark == '-' || mark == Bullet
    requires Clean(x) && '\r' !in x
    requires x != [] && !IsSpace(x[0]) && !IsSpace(x[|x| - 1])
    ensures Sanitize([mark, ' '] + ([mark, ' '] + x)) == [mark, ' '] + x
  {
    BulletLineClean(mark, x);
    BulletStripped(mark, [mark, ' '] + x);
  }

}
