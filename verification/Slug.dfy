/**
 Heading anchors of the analysis page (frontend/src/pages/AnalysisDetail.tsx): slugify, a chain
 of rewrites, and parseHeadings, which builds the table of contents.

 `ext` is toLowerCase on the characters that are neither ASCII nor white space nor in the kept
 range of Chinese characters; every theorem holds for any such function.
 */
module Slug {
  import opened Wrappers
  import opened Text

  predicate IsMarker(c: char) {
    c == '*' || c == '_' || c == '`' || c == '#' || c == '~'
  }

  /** What a slug is made of besides hyphens: \w without the underscore, and the Chinese range. */
  predicate IsWordChar(c: char) {
    'a' <= c <= 'z' || 'A' <= c <= 'Z' || '0' <= c <= '9' || '\U{4E00}' <= c <= '\U{9FA5}'
  }

  // ---- The passes of slugify -----------------------------------------------------------------------

  /** toLowerCase, which is `ext` on the characters that are neither ASCII, white space nor Chinese. */
  function LowerCharBy(ext: char -> string, c: char): string {
    if c < '\U{80}' || IsSpace(c) || IsWordChar(c) then [LowerChar(c)] else ext(c)
  }

  function LowerBy(ext: char -> string, s: string): string {
    if s == "" then "" else LowerCharBy(ext, s[0]) + LowerBy(ext, s[1..])
  }

  /** .replace(/[*_`#~]/g, '') */
  function DropMarkers(s: string): string {
    if s == "" then "" else (if IsMarker(s[0]) then "" else [s[0]]) + DropMarkers(s[1..])
  }

  /** .replace(/\s+/g, '-') */
  function DashSpaces(s: string): string
    decreases |s|
  {
    if s == "" then ""
    else if IsSpace(s[0]) then TrimStartShrinks(s); "-" + DashSpaces(TrimStart(s))
    else [s[0]] + DashSpaces(s[1..])
  }

  /** .replace(/[^\w一-龥-]/g, '') */
  function KeepSlugChars(s: string): string {
    if s == "" then ""
    else (if IsWordChar(s[0]) || s[0] == '_' || s[0] == '-' then [s[0]] else "") + KeepSlugChars(s[1..])
  }

  function SkipDashes(s: string): string {
    if s != "" && s[0] == '-' then SkipDashes(s[1..]) else s
  }

  lemma {:induction false} SkipDashesShrinks(s: string)
    ensures |SkipDashes(s)| <= |s|
    ensures s != "" && s[0] == '-' ==> |SkipDashes(s)| < |s|
  {
    if s == "" {
    } else {
      SkipDashesShrinks(s[1..]);
    }
  }

  /** .replace(/-+/g, '-') */
  function CollapseDashes(s: string): string
    decreases |s|
  {
    if s == "" then ""
    else if s[0] == '-' then SkipDashesShrinks(s); "-" + CollapseDashes(SkipDashes(s))
    else [s[0]] + CollapseDashes(s[1..])
  }

  /** .replace(/^-|-$/g, '') */
  function StripEdges(s: string): string {
    var t := if s != "" && s[0] == '-' then s[1..] else s;
    if t != "" && t[|t| - 1] == '-' then t[..|t| - 1] else t
  }

  function Slugify(ext: char -> string, text: string): string {
    StripEdges(CollapseDashes(KeepSlugChars(DashSpaces(DropMarkers(LowerBy(ext, Trim(text)))))))
  }

  // ---- One pass -------------------------------------------------------------------------------------

  /**
   Copies word characters, puts one hyphen between two of them that are separated by white
   space or hyphens, and skips everything else.  `gap`: a separator was read since the last
   word character; `started`: there was a word character.
   */
  function Scan(s: string, gap: bool, started: bool): string {
    if s == "" then ""
    else if IsWordChar(s[0]) then (if gap && started then "-" else "") + [s[0]] + Scan(s[1..], false, true)
    else Scan(s[1..], gap || IsSpace(s[0]) || s[0] == '-', started)
  }

  /** Words joined by single hyphens. */
  predicate IsSlug(s: string) {
    && (forall i | 0 <= i < |s| :: IsWordChar(s[i]) || s[i] == '-')
    && (s != "" ==> s[0] != '-' && s[|s| - 1] != '-')
    && (forall i | 0 < i < |s| :: s[i - 1] != '-' || s[i] != '-')
  }

  lemma {:induction false} ScanDropMarkers(s: string, gap: bool, started: bool)
    ensures Scan(DropMarkers(s), gap, started) == Scan(s, gap, started)
  {
    if s == "" {
    } else {
      var c := s[0];
      if IsMarker(c) {
        assert DropMarkers(s) == DropMarkers(s[1..]);
        ScanDropMarkers(s[1..], gap, started);
      } else {
        assert DropMarkers(s)[0] == c && DropMarkers(s)[1..] == DropMarkers(s[1..]);
        ScanDropMarkers(s[1..], if IsWordChar(c) then false else gap || IsSpace(c) || c == '-', started || IsWordChar(c));
      }
    }
  }

  lemma {:induction false} ScanTrimStart(s: string, started: bool)
    ensures Scan(TrimStart(s), true, started) == Scan(s, true, started)
  {
    if s == "" || !IsSpace(s[0]) {
    } else {
      ScanTrimStart(s[1..], started);
    }
  }

  lemma {:induction false} ScanDashSpaces(s: string, gap: bool, started: bool)
    ensures Scan(DashSpaces(s), gap, started) == Scan(s, gap, started)
    decreases |s|
  {
    if s == "" {
    } else {
      var c := s[0];
      if IsSpace(c) {
        TrimStartShrinks(s);
        var t := TrimStart(s);
        assert DashSpaces(s)[1..] == DashSpaces(t);
        ScanDashSpaces(t, true, started);
        ScanTrimStart(s[1..], started);
        assert t == TrimStart(s[1..]);
      } else {
        assert DashSpaces(s)[1..] == DashSpaces(s[1..]);
        ScanDashSpaces(s[1..], if IsWordChar(c) then false else gap || c == '-', started || IsWordChar(c));
      }
    }
  }

  lemma {:induction false} ScanKeepSlugChars(s: string, gap: bool, started: bool)
    requires NoSpace(s)
    ensures Scan(KeepSlugChars(s), gap, started) == Scan(s, gap, started)
  {
    if s == "" {
    } else {
      var c := s[0];
      if IsWordChar(c) || c == '_' || c == '-' {
        assert KeepSlugChars(s)[1..] == KeepSlugChars(s[1..]);
        ScanKeepSlugChars(s[1..], if IsWordChar(c) then false else gap || c == '-', started || IsWordChar(c));
      } else {
        assert KeepSlugChars(s) == KeepSlugChars(s[1..]);
        ScanKeepSlugChars(s[1..], gap, started);
      }
    }
  }

  lemma {:induction false} ScanSkipDashes(s: string, started: bool)
    ensures Scan(SkipDashes(s), true, started) == Scan(s, true, started)
  {
    if s == "" || s[0] != '-' {
    } else {
      ScanSkipDashes(s[1..], started);
    }
  }

  lemma {:induction false} ScanCollapseDashes(s: string, gap: bool, started: bool)
    ensures Scan(CollapseDashes(s), gap, started) == Scan(s, gap, started)
    decreases |s|
  {
    if s == "" {
    } else {
      var c := s[0];
      if c == '-' {
        SkipDashesShrinks(s);
        var t := SkipDashes(s);
        assert CollapseDashes(s)[1..] == CollapseDashes(t);
        ScanCollapseDashes(t, true, started);
        ScanSkipDashes(s[1..], started);
        assert t == SkipDashes(s[1..]);
      } else {
        assert CollapseDashes(s)[1..] == CollapseDashes(s[1..]);
        ScanCollapseDashes(s[1..], if IsWordChar(c) then false else gap || IsSpace(c), started || IsWordChar(c));
      }
    }
  }

  /** Before the first word a separator does not matter. */
  lemma {:induction false} ScanUnstarted(s: string, gap: bool)
    ensures Scan(s, gap, false) == Scan(s, false, false)
  {
    if s == "" || IsWordChar(s[0]) {
    } else {
      ScanUnstarted(s[1..], gap || IsSpace(s[0]) || s[0] == '-');
      ScanUnstarted(s[1..], IsSpace(s[0]) || s[0] == '-');
    }
  }

  predicate NoWordChars(s: string) {
    forall i | 0 <= i < |s| :: !IsWordChar(s[i])
  }

  lemma {:induction false} ScanNothing(s: string, gap: bool, started: bool)
    requires NoWordChars(s)
    ensures Scan(s, gap, started) == ""
  {
    if s == "" {
    } else {
      ScanNothing(s[1..], gap || IsSpace(s[0]) || s[0] == '-', started);
    }
  }

  /** What follows the last word does not matter. */
  lemma {:induction false} ScanTail(s: string, tail: string, gap: bool, started: bool)
    requires NoWordChars(tail)
    ensures Scan(s + tail, gap, started) == Scan(s, gap, started)
  {
    if s == "" {
      assert s + tail == tail;
      ScanNothing(tail, gap, started);
    } else {
      var c := s[0];
      assert (s + tail)[1..] == s[1..] + tail;
      ScanTail(s[1..], tail, if IsWordChar(c) then false else gap || IsSpace(c) || c == '-', started || IsWordChar(c));
    }
  }

  /** What precedes the first word does not matter. */
  lemma {:induction false} ScanHead(head: string, s: string)
    requires NoWordChars(head)
    ensures Scan(head + s, false, false) == Scan(s, false, false)
  {
    if head == "" {
      assert head + s == s;
    } else {
      assert (head + s)[1..] == head[1..] + s;
      ScanUnstarted(head[1..] + s, IsSpace(head[0]) || head[0] == '-');
      ScanHead(head[1..], s);
    }
  }

  lemma {:induction false} ScanStripEdges(s: string)
    ensures Scan(StripEdges(s), false, false) == Scan(s, false, false)
  {
    var t := if s != "" && s[0] == '-' then s[1..] else s;
    if s != t {
      assert s == "-" + t;
      ScanHead("-", t);
    }
    if t != "" && t[|t| - 1] == '-' {
      assert t == t[..|t| - 1] + "-";
      ScanTail(t[..|t| - 1], "-", false, false);
    }
  }

  // ---- The shape of the pipeline's result -------------------------------------------------------------

  predicate NoMarkers(s: string) {
    forall i | 0 <= i < |s| :: !IsMarker(s[i])
  }

  lemma {:induction false} DropMarkersClean(s: string)
    ensures NoMarkers(DropMarkers(s))
  {
    if s == "" {
    } else {
      DropMarkersClean(s[1..]);
    }
  }

  lemma {:induction false} DashSpacesClean(s: string)
    requires NoMarkers(s)
    ensures NoMarkers(DashSpaces(s)) && NoSpace(DashSpaces(s))
    decreases |s|
  {
    if s == "" {
    } else {
      if IsSpace(s[0]) {
        TrimStartShrinks(s);
        TrimStartIsSuffix(s);
        DashSpacesClean(TrimStart(s));
      } else {
        DashSpacesClean(s[1..]);
      }
    }
  }

  lemma {:induction false} TrimStartIsSuffix(s: string)
    ensures |TrimStart(s)| <= |s| && s[|s| - |TrimStart(s)|..] == TrimStart(s)
    ensures forall i | 0 <= i < |s| - |TrimStart(s)| :: IsSpace(s[i])
  {
    if s == "" || !IsSpace(s[0]) {
    } else {
      TrimStartIsSuffix(s[1..]);
      assert forall i | 0 < i < |s| - |TrimStart(s)| :: s[i] == s[1..][i - 1];
    }
  }

  predicate SlugChars(s: string) {
    forall i | 0 <= i < |s| :: IsWordChar(s[i]) || s[i] == '-'
  }

  lemma {:induction false} KeepSlugCharsClean(s: string)
    requires NoMarkers(s)
    ensures SlugChars(KeepSlugChars(s))
  {
    if s == "" {
    } else {
      KeepSlugCharsClean(s[1..]);
    }
  }

  predicate NoDoubleDash(s: string) {
    forall i | 0 < i < |s| :: s[i - 1] != '-' || s[i] != '-'
  }

  lemma {:induction false} SkipDashesClean(s: string)
    requires SlugChars(s)
    ensures SlugChars(SkipDashes(s)) && (SkipDashes(s) != "" ==> SkipDashes(s)[0] != '-')
  {
    if s == "" || s[0] != '-' {
    } else {
      SkipDashesClean(s[1..]);
    }
  }

  lemma {:induction false} CollapseDashesClean(s: string)
    requires SlugChars(s)
    ensures SlugChars(CollapseDashes(s)) && NoDoubleDash(CollapseDashes(s))
    ensures s != "" ==> CollapseDashes(s) != "" && CollapseDashes(s)[0] == s[0]
    decreases |s|
  {
    if s == "" {
    } else {
      if s[0] == '-' {
        SkipDashesShrinks(s);
        SkipDashesClean(s);
        CollapseDashesClean(SkipDashes(s));
      } else {
        CollapseDashesClean(s[1..]);
      }
    }
  }

  lemma {:induction false} StripEdgesClean(s: string)
    requires SlugChars(s) && NoDoubleDash(s)
    ensures IsSlug(StripEdges(s))
  {}

  lemma {:induction false} SlugShape(ext: char -> string, text: string)
    ensures IsSlug(Slugify(ext, text))
  {
    var a := DropMarkers(LowerBy(ext, Trim(text)));
    DropMarkersClean(LowerBy(ext, Trim(text)));
    DashSpacesClean(a);
    KeepSlugCharsClean(DashSpaces(a));
    CollapseDashesClean(KeepSlugChars(DashSpaces(a)));
    StripEdgesClean(CollapseDashes(KeepSlugChars(DashSpaces(a))));
  }

  /** Scanning words that are joined by single hyphens gives them back. */
  lemma {:induction false} ScanOfSlug(s: string, gap: bool, started: bool)
    requires SlugChars(s) && NoDoubleDash(s) && (s != "" ==> s[|s| - 1] != '-')
    requires s != "" && s[0] == '-' ==> started && !gap
    ensures Scan(s, gap, started) == (if gap && started && s != "" then "-" else "") + s
  {
    if s == "" {
    } else {
      if s[0] == '-' {
        ScanOfSlug(s[1..], true, started);
      } else {
        ScanOfSlug(s[1..], false, true);
      }
    }
  }

  // ---- Theorems about slugify --------------------------------------------------------------------------

  lemma {:induction false} LowerConcat(ext: char -> string, s: string, t: string)
    ensures LowerBy(ext, s + t) == LowerBy(ext, s) + LowerBy(ext, t)
  {
    if s == "" {
      assert s + t == t;
    } else {
      assert (s + t)[1..] == s[1..] + t;
      LowerConcat(ext, s[1..], t);
    }
  }

  lemma {:induction false} LowerSame(ext: char -> string, s: string)
    requires forall i | 0 <= i < |s| :: LowerCharBy(ext, s[i]) == [s[i]]
    ensures LowerBy(ext, s) == s
  {
    if s == "" {
    } else {
      LowerSame(ext, s[1..]);
    }
  }

  /** White space and markers around a text. */
  predicate IsTrimming(s: string) {
    forall i | 0 <= i < |s| :: IsSpace(s[i]) || IsMarker(s[i])
  }

  lemma {:induction false} TrimmingIsSilent(ext: char -> string, s: string)
    requires IsTrimming(s)
    ensures NoWordChars(s) && LowerBy(ext, s) == s
  {
    LowerSame(ext, s);
  }

  /** Neither white space nor markers around a text change its scan. */
  lemma {:induction false} ScanAround(ext: char -> string, head: string, s: string, tail: string)
    requires IsTrimming(head) && IsTrimming(tail)
    ensures Scan(LowerBy(ext, head + s + tail), false, false) == Scan(LowerBy(ext, s), false, false)
  {
    LowerConcat(ext, head + s, tail);
    LowerConcat(ext, head, s);
    TrimmingIsSilent(ext, head);
    TrimmingIsSilent(ext, tail);
    ScanTail(LowerBy(ext, head + s), tail, false, false);
    ScanHead(head, LowerBy(ext, s));
  }

  lemma {:induction false} TrimEndIsPrefix(s: string)
    ensures |TrimEnd(s)| <= |s| && s[..|TrimEnd(s)|] == TrimEnd(s)
    ensures forall i | |TrimEnd(s)| <= i < |s| :: IsSpace(s[i])
  {
    if s == "" || !IsSpace(s[|s| - 1]) {
    } else {
      TrimEndIsPrefix(s[..|s| - 1]);
      assert s[..|s| - 1][..|TrimEnd(s)|] == s[..|TrimEnd(s)|];
    }
  }

  lemma {:induction false} TrimSplits(s: string) returns (head: string, tail: string)
    ensures s == head + Trim(s) + tail && IsTrimming(head) && IsTrimming(tail)
  {
    var t := TrimStart(s);
    TrimStartIsSuffix(s);
    TrimEndIsPrefix(t);
    hide IsSpace, IsMarker, TrimStart, TrimEnd;
    head, tail := s[..|s| - |t|], t[|Trim(s)|..];
    assert s == head + t && t == Trim(s) + tail;
  }

  lemma {:induction false} ScanTrim(ext: char -> string, s: string)
    ensures Scan(LowerBy(ext, Trim(s)), false, false) == Scan(LowerBy(ext, s), false, false)
  {
    var head, tail := TrimSplits(s);
    hide Scan, LowerBy, Trim, IsTrimming;
    ScanAround(ext, head, Trim(s), tail);
  }

  lemma {:induction false} ScanPasses(low: string)
    ensures Scan(StripEdges(CollapseDashes(KeepSlugChars(DashSpaces(DropMarkers(low))))), false, false)
            == Scan(low, false, false)
  {
    hide Scan, StripEdges, CollapseDashes, KeepSlugChars, DashSpaces, DropMarkers;
    var a := DropMarkers(low);
    var b := DashSpaces(a);
    var c := KeepSlugChars(b);
    DropMarkersClean(low);
    DashSpacesClean(a);
    ScanDropMarkers(low, false, false);
    ScanDashSpaces(a, false, false);
    ScanKeepSlugChars(b, false, false);
    ScanCollapseDashes(c, false, false);
    ScanStripEdges(CollapseDashes(c));
  }

  /** The chain of rewrites is the one-pass word joiner run over the lowered text. */
  lemma {:induction false} SlugIsOnePass(ext: char -> string, text: string)
    ensures Slugify(ext, text) == Scan(LowerBy(ext, text), false, false)
  {
    hide Scan, StripEdges, CollapseDashes, KeepSlugChars, DashSpaces, DropMarkers;
    ScanTrim(ext, text);
    ScanPasses(LowerBy(ext, Trim(text)));
    SlugShape(ext, text);
    ScanOfSlug(Slugify(ext, text), false, false);
  }

  predicate NoCapitals(s: string) {
    forall i | 0 <= i < |s| :: !IsCapital(s[i])
  }

  /** The texts slugify leaves alone are exactly the slugs without capitals. */
  lemma {:induction false} FixedPointsAreSlugs(ext: char -> string, s: string)
    ensures IsSlug(s) && NoCapitals(s) ==> Slugify(ext, s) == s
    ensures Slugify(ext, s) == s ==> IsSlug(s)
  {
    SlugShape(ext, s);
    if IsSlug(s) && NoCapitals(s) {
      SlugIsOnePass(ext, s);
      LowerSame(ext, s);
      ScanOfSlug(s, false, false);
    }
  }

  lemma {:induction false} LowerHasNoCapitals(ext: char -> string, s: string)
    requires forall c :: NoCapitals(ext(c))
    ensures NoCapitals(LowerBy(ext, s))
  {
    if s == "" {
    } else {
      LowerHasNoCapitals(ext, s[1..]);
      assert NoCapitals(LowerCharBy(ext, s[0]));
    }
  }

  lemma {:induction false} ScanHasNoCapitals(s: string, gap: bool, started: bool)
    requires NoCapitals(s)
    ensures NoCapitals(Scan(s, gap, started))
  {
    if s == "" {
    } else {
      ScanHasNoCapitals(s[1..], if IsWordChar(s[0]) then false else gap || IsSpace(s[0]) || s[0] == '-',
                        started || IsWordChar(s[0]));
    }
  }

  /** slugify is idempotent, given that lowering a character gives no capital ASCII letter. */
  lemma {:induction false} SlugIdempotent(ext: char -> string, text: string)
    requires forall c :: NoCapitals(ext(c))
    ensures Slugify(ext, Slugify(ext, text)) == Slugify(ext, text)
  {
    SlugShape(ext, text);
    SlugIsOnePass(ext, text);
    LowerHasNoCapitals(ext, text);
    ScanHasNoCapitals(LowerBy(ext, text), false, false);
    FixedPointsAreSlugs(ext, Slugify(ext, text));
  }

  lemma {:induction false} DropMarkersConcat(s: string, t: string)
    ensures DropMarkers(s + t) == DropMarkers(s) + DropMarkers(t)
  {
    if s == "" {
      assert s + t == t;
    } else {
      assert (s + t)[1..] == s[1..] + t;
      DropMarkersConcat(s[1..], t);
    }
  }

  lemma {:induction false} LowerDropMarkers(ext: char -> string, s: string)
    ensures DropMarkers(LowerBy(ext, DropMarkers(s))) == DropMarkers(LowerBy(ext, s))
  {
    if s == "" {
    } else {
      LowerDropMarkers(ext, s[1..]);
      DropMarkersConcat(LowerCharBy(ext, s[0]), LowerBy(ext, s[1..]));
      if IsMarker(s[0]) {
        assert DropMarkers(s) == DropMarkers(s[1..]);
        assert DropMarkers(LowerCharBy(ext, s[0])) == "";
      } else {
        assert DropMarkers(s) == [s[0]] + DropMarkers(s[1..]);
        LowerConcat(ext, [s[0]], DropMarkers(s[1..]));
        assert LowerBy(ext, [s[0]]) == LowerCharBy(ext, s[0]);
        DropMarkersConcat(LowerCharBy(ext, s[0]), LowerBy(ext, DropMarkers(s[1..])));
      }
    }
  }

  /** Which characters are markers: asterisk, underscore, backtick, hash and tilde. */
  lemma {:induction false} MarkersAre(a: string, c: char, b: string)
    ensures DropMarkers(a + [c] + b) == DropMarkers(a) + (if c in {'*', '_', '`', '#', '~'} then "" else [c]) + DropMarkers(b)
  {
    DropMarkersConcat(a + [c], b);
    DropMarkersConcat(a, [c]);
    assert DropMarkers([c][1..]) == "";
  }

  /** Two texts that differ only in emphasis markers and hashes have the same slug. */
  lemma {:induction false} MarkersDoNotMatter(ext: char -> string, s: string, t: string)
    requires DropMarkers(s) == DropMarkers(t)
    ensures Slugify(ext, s) == Slugify(ext, t)
  {
    SlugIsOnePass(ext, s);
    SlugIsOnePass(ext, t);
    LowerDropMarkers(ext, s);
    LowerDropMarkers(ext, t);
    ScanDropMarkers(LowerBy(ext, s), false, false);
    ScanDropMarkers(LowerBy(ext, t), false, false);
  }

  // ---- Which characters a slug keeps --------------------------------------------------------------------

  /** The digits, the lower-case ASCII letters, and the Chinese characters, by their codes. */
  predicate IsKept(c: char) {
    48 <= c as int <= 57 || 97 <= c as int <= 122 || 0x4E00 <= c as int <= 0x9FA5
  }

  lemma {:induction false} ScanKeeps(s: string, gap: bool, started: bool)
    requires NoCapitals(s)
    ensures forall c | c in Scan(s, gap, started) :: c == '-' || IsKept(c)
  {
    if s == "" {
    } else {
      ScanKeeps(s[1..], if IsWordChar(s[0]) then false else gap || IsSpace(s[0]) || s[0] == '-', started || IsWordChar(s[0]));
    }
  }

  /** A slug consists of these characters and hyphens. */
  lemma {:induction false} SlugAlphabet(ext: char -> string, text: string)
    requires forall c :: NoCapitals(ext(c))
    ensures forall c | c in Slugify(ext, text) :: c == '-' || IsKept(c)
  {
    SlugIsOnePass(ext, text);
    LowerHasNoCapitals(ext, text);
    ScanKeeps(LowerBy(ext, text), false, false);
  }

  /** Words of such characters, separated by single spaces. */
  predicate IsPlain(text: string) {
    && (forall i | 0 <= i < |text| :: IsKept(text[i]) || text[i] == ' ')
    && (text != "" ==> text[|text| - 1] != ' ')
    && (forall i | 0 < i < |text| :: text[i - 1] != ' ' || text[i] != ' ')
  }

  function Dashed(text: string): string {
    seq(|text|, i requires 0 <= i < |text| => if text[i] == ' ' then '-' else text[i])
  }

  lemma {:induction false} PlainTail(s: string)
    requires IsPlain(s) && s != ""
    ensures IsPlain(s[1..]) && Dashed(s) == [if s[0] == ' ' then '-' else s[0]] + Dashed(s[1..])
    ensures s[0] == ' ' ==> s[1..] != "" && s[1] != ' '
    ensures s[0] == ' ' || (IsWordChar(s[0]) && s[0] != '-')
  {
    var rest := s[1..];
    assert forall i | 0 <= i < |rest| :: rest[i] == s[i + 1];
    assert forall i | 0 < i < |rest| :: rest[i - 1] == s[i];
  }

  lemma {:induction false} ScanPlain(s: string, gap: bool, started: bool)
    requires IsPlain(s) && (s != "" && s[0] == ' ' ==> started && !gap) && (gap ==> s != "")
    ensures Scan(s, gap, started) == (if gap && started then "-" else "") + Dashed(s)
  {
    if s == "" {
    } else {
      PlainTail(s);
      assert IsSpace(' ') && !IsWordChar(' ');
      hide IsPlain, IsWordChar, IsSpace, Dashed;
      if s[0] == ' ' {
        ScanPlain(s[1..], true, true);
      } else {
        ScanPlain(s[1..], false, true);
      }
    }
  }

  /** Such a text keeps all its words, joined by hyphens. */
  lemma {:induction false} PlainTextIsDashed(ext: char -> string, text: string)
    requires IsPlain(text) && (text != "" ==> text[0] != ' ')
    ensures Slugify(ext, text) == Dashed(text)
  {
    SlugIsOnePass(ext, text);
    LowerSame(ext, text);
    ScanPlain(text, false, false);
  }

  /** Upper and lower case make no difference. */
  lemma {:induction false} CaseDoesNotMatter(ext: char -> string, text: string)
    ensures Slugify(ext, Lower(text)) == Slugify(ext, text)
  {
    SlugIsOnePass(ext, text);
    SlugIsOnePass(ext, Lower(text));
    LowerTwice(ext, text);
  }

  lemma {:induction false} LowerTwice(ext: char -> string, s: string)
    ensures LowerBy(ext, Lower(s)) == LowerBy(ext, s)
  {
    if s == "" {
    } else {
      LowerTwice(ext, s[1..]);
      assert Lower(s)[1..] == Lower(s[1..]);
    }
  }

  lemma {:induction false} ScanSkips(a: string, c: char, b: string, gap: bool, started: bool)
    requires !IsWordChar(c) && !IsSpace(c) && c != '-'
    ensures Scan(a + [c] + b, gap, started) == Scan(a + b, gap, started)
  {
    if a == "" {
      assert a + [c] + b == [c] + b && a + b == b;
      assert ([c] + b)[1..] == b;
    } else {
      assert (a + [c] + b)[1..] == a[1..] + [c] + b && (a + b)[1..] == a[1..] + b;
      ScanSkips(a[1..], c, b, if IsWordChar(a[0]) then false else gap || IsSpace(a[0]) || a[0] == '-',
                started || IsWordChar(a[0]));
    }
  }

  lemma {:induction false} LowerAround(ext: char -> string, a: string, c: char, b: string)
    requires LowerCharBy(ext, c) == [c]
    ensures LowerBy(ext, a + [c] + b) == LowerBy(ext, a) + [c] + LowerBy(ext, b)
  {
    LowerConcat(ext, a + [c], b);
    LowerConcat(ext, a, [c]);
    assert [c][1..] == "" && LowerBy(ext, [c]) == LowerCharBy(ext, c) + "" == [c];
  }

  /** Any other ASCII character, the underscore included, may be left out without a trace. */
  lemma {:induction false} PunctuationVanishes(ext: char -> string, a: string, c: char, b: string)
    requires 33 <= c as int <= 126 && c != '-' && !(48 <= c as int <= 57) && !(65 <= c as int <= 90) && !(97 <= c as int <= 122)
    ensures Slugify(ext, a + [c] + b) == Slugify(ext, a + b)
  {
    assert LowerCharBy(ext, c) == [c] && !IsWordChar(c) && !IsSpace(c);
    hide LowerCharBy, IsSpace, IsWordChar, Slugify, LowerBy, Scan;
    SlugIsOnePass(ext, a + [c] + b);
    SlugIsOnePass(ext, a + b);
    LowerAround(ext, a, c, b);
    LowerConcat(ext, a, b);
    ScanSkips(LowerBy(ext, a), c, LowerBy(ext, b), false, false);
  }

  // ---- The table of contents ------------------------------------------------------------------------------

  datatype Entry = Entry(text: string, slug: string)

  /** The characters the dot of a regular expression does not match. */
  predicate IsLineEnd(c: char) {
    c == '\n' || c == '\r' || c == '\U{2028}' || c == '\U{2029}'
  }

  function Hashes(s: string): nat {
    if s != "" && s[0] == '#' then 1 + Hashes(s[1..]) else 0
  }

  /** s matches \s*#*$ */
  predicate IsClosing(s: string) {
    forall c | c in TrimStart(s) :: c == '#'
  }

  /** (.+?)\s*#*$ on rest[start..], with a first group that ends at `end` or later. */
  function ShortestBody(rest: string, start: nat, end: nat): Option<string>
    requires start < end
    decreases |rest| - end
  {
    if end > |rest| || IsLineEnd(rest[end - 1]) then None
    else if IsClosing(rest[end..]) then Some(rest[start..end])
    else ShortestBody(rest, start, end + 1)
  }

  /** \s+(.+?)\s*#*$ on rest, where the white space takes at most `spaces` characters. */
  function Backtrack(rest: string, spaces: nat): Option<string> {
    if spaces == 0 then None
    else
      var body := ShortestBody(rest, spaces, spaces + 1);
      if body.Some? then body else Backtrack(rest, spaces - 1)
  }

  /** The second group of /^(#{2,4})\s+(.+?)\s*#*$/ */
  function HeadingBody(line: string): Option<string>
  {
    var hashes := Hashes(line);
    if 2 <= hashes <= 4 && hashes <= |line| then
      var rest := line[hashes..];
      TrimStartShrinks(rest);
      Backtrack(rest, |rest| - |TrimStart(rest)|)
    else None
  }

  /** .replace(/[*_`]/g, '') */
  function DropEmphasis(s: string): string {
    if s == "" then "" else (if s[0] in "*_`" then "" else [s[0]]) + DropEmphasis(s[1..])
  }

  function EntriesOf(ext: char -> string, line: string): seq<Entry> {
    var body := HeadingBody(line);
    if body.None? then []
    else
      var text := Trim(DropEmphasis(body.value));
      if text == "" then [] else [Entry(text, Slugify(ext, body.value))]
  }

  function Contents(ext: char -> string, lines: seq<string>): seq<Entry> {
    if lines == [] then [] else Contents(ext, lines[..|lines| - 1]) + EntriesOf(ext, lines[|lines| - 1])
  }

  lemma {:induction false} ShortestBodyFits(rest: string, start: nat, end: nat)
    requires start < end && ShortestBody(rest, start, end).Some?
    ensures var body := ShortestBody(rest, start, end).value;
            && body != "" && start + |body| <= |rest| && rest[start..start + |body|] == body
            && IsClosing(rest[start + |body|..])
    decreases |rest| - end
  {
    if IsClosing(rest[end..]) {
    } else {
      ShortestBodyFits(rest, start, end + 1);
    }
  }

  lemma {:induction false} BacktrackFits(rest: string, spaces: nat)
    requires Backtrack(rest, spaces).Some?
    ensures exists n: nat :: SplitAt(rest, n, Backtrack(rest, spaces).value) && 0 < n <= spaces
  {
    if ShortestBody(rest, spaces, spaces + 1).Some? {
      ShortestBodyFits(rest, spaces, spaces + 1);
      assert SplitAt(rest, spaces, Backtrack(rest, spaces).value);
    } else {
      BacktrackFits(rest, spaces - 1);
    }
  }

  /** The body starts after n characters and is followed by white space and hashes only. */
  predicate SplitAt(rest: string, n: nat, body: string) {
    n + |body| <= |rest| && rest[n..n + |body|] == body && IsClosing(rest[n + |body|..])
  }

  lemma {:induction false} HashesAre(s: string)
    ensures Hashes(s) <= |s| && forall i | 0 <= i < Hashes(s) :: s[i] == '#'
  {
    if s == "" || s[0] != '#' {
    } else {
      HashesAre(s[1..]);
      assert forall i | 0 < i < Hashes(s) :: s[i] == s[1..][i - 1];
    }
  }

  lemma {:induction false} ClosingIsTrimming(s: string)
    requires IsClosing(s)
    ensures IsTrimming(s)
  {
    TrimStartIsSuffix(s);
    var k := |s| - |TrimStart(s)|;
    forall i | 0 <= i < |s| ensures IsSpace(s[i]) || IsMarker(s[i]) {
      if i >= k {
        assert s[k..][i - k] in TrimStart(s);
      }
    }
  }

  lemma {:induction false} BodyOfRest(rest: string, spaces: nat)
    requires spaces == |rest| - |TrimStart(rest)| && Backtrack(rest, spaces).Some?
    ensures exists n: nat :: SplitAt(rest, n, Backtrack(rest, spaces).value)
                             && n <= |rest| && IsTrimming(rest[..n])
  {
    TrimStartIsSuffix(rest);
    BacktrackFits(rest, spaces);
    var n: nat :| SplitAt(rest, n, Backtrack(rest, spaces).value) && 0 < n <= spaces;
    assert IsTrimming(rest[..n]);
  }

  lemma {:induction false} Surround(line: string, hashes: nat, n: nat, body: string) returns (head: string, tail: string)
    requires hashes <= |line| && IsTrimming(line[..hashes])
    requires SplitAt(line[hashes..], n, body) && n <= |line| - hashes && IsTrimming(line[hashes..][..n])
    ensures line == head + body + tail && IsTrimming(head) && IsTrimming(tail)
  {
    var rest := line[hashes..];
    tail := rest[n + |body|..];
    ClosingIsTrimming(tail);
    hide IsClosing, IsSpace;
    head := line[..hashes] + rest[..n];
    assert rest == rest[..n] + body + tail;
    assert line == line[..hashes] + rest;
  }

  lemma {:induction false} BodyIs(line: string)
    requires HeadingBody(line).Some?
    ensures Hashes(line) <= |line| && IsTrimming(line[..Hashes(line)])
    ensures var rest := line[Hashes(line)..];
            |TrimStart(rest)| <= |rest| && HeadingBody(line) == Backtrack(rest, |rest| - |TrimStart(rest)|)
  {
    HashesAre(line);
    TrimStartShrinks(line[Hashes(line)..]);
  }

  /** A matched line is its body with white space and hashes around it. */
  lemma {:induction false} HeadingLine(line: string) returns (head: string, tail: string)
    requires HeadingBody(line).Some?
    ensures line == head + HeadingBody(line).value + tail && IsTrimming(head) && IsTrimming(tail)
  {
    var hashes := Hashes(line);
    BodyIs(line);
    hide TrimStart, Backtrack, IsTrimming, HeadingBody, Hashes, SplitAt;
    var rest := line[hashes..];
    BodyOfRest(rest, |rest| - |TrimStart(rest)|);
    var n: nat :| SplitAt(rest, n, HeadingBody(line).value) && n <= |rest| && IsTrimming(rest[..n]);
    head, tail := Surround(line, hashes, n, HeadingBody(line).value);
  }

  // ---- The heading pattern -------------------------------------------------------------------------------

  /** A split of the line as /^(#{2,4})\s+(.+?)\s*#*$/ allows it: lengths of hashes, space, body and space. */
  predicate IsMatch(line: string, h: nat, n: nat, len: nat, k: nat) {
    && 2 <= h <= 4 && n >= 1 && len >= 1 && h + n + len + k <= |line|
    && (forall i | 0 <= i < h :: line[i] == '#')
    && (forall i | h <= i < h + n :: IsSpace(line[i]))
    && (forall i | h + n <= i < h + n + len :: line[i] as int !in {10, 13, 0x2028, 0x2029})
    && (forall i | h + n + len <= i < h + n + len + k :: IsSpace(line[i]))
    && (forall i | h + n + len + k <= i < |line| :: line[i] == '#')
  }

  predicate SpacesThenHashes(s: string, k: nat) {
    && k <= |s| && (forall i | 0 <= i < k :: IsSpace(s[i])) && (forall i | k <= i < |s| :: s[i] == '#')
  }

  lemma {:induction false} ClosingMeans(s: string)
    ensures IsClosing(s) <==> exists k: nat :: SpacesThenHashes(s, k)
  {
    TrimStartIsSuffix(s);
    if IsClosing(s) {
      var k := |s| - |TrimStart(s)|;
      forall i | k <= i < |s| ensures s[i] == '#' {
        assert s[i] == TrimStart(s)[i - k];
        assert TrimStart(s)[i - k] in TrimStart(s);
      }
      assert SpacesThenHashes(s, k);
    }
    if k: nat :| SpacesThenHashes(s, k) {
      assert s == s[..k] + s[k..];
      TrimStartSkips(s[..k], s[k..]);
    }
  }

  /** A body from `start` to `end` that the rest of the pattern accepts. */
  predicate EndsBody(rest: string, start: nat, end: nat) {
    start < end <= |rest| && (forall i | start <= i < end :: !IsLineEnd(rest[i])) && IsClosing(rest[end..])
  }

  lemma {:induction false} ShortestBodyIs(rest: string, start: nat, end: nat) returns (e: nat)
    requires start < end <= |rest| + 1 && forall i | start <= i < end - 1 :: !IsLineEnd(rest[i])
    ensures var body := ShortestBody(rest, start, end);
            && (body.Some? ==> start < end <= e <= |rest| && EndsBody(rest, start, e) && body.value == rest[start..e]
                               && forall e' | end <= e' < e :: !EndsBody(rest, start, e'))
            && (body.None? ==> forall e' | end <= e' :: !EndsBody(rest, start, e'))
    decreases |rest| - end
  {
    e := end;
    if end > |rest| || IsLineEnd(rest[end - 1]) || IsClosing(rest[end..]) {
    } else {
      e := ShortestBodyIs(rest, start, end + 1);
    }
  }

  /** With at most `spaces` characters of space before it, the first body in the order of backtracking. */
  ghost predicate IsFirstBody(rest: string, spaces: nat, n: nat, e: nat) {
    && 1 <= n <= spaces && n < e <= |rest| && EndsBody(rest, n, e)
    && (forall e': nat | e' < e :: !EndsBody(rest, n, e'))
    && (forall n': nat, e': nat | n < n' <= spaces :: !EndsBody(rest, n', e'))
  }

  ghost predicate NoBody(rest: string, spaces: nat) {
    forall n: nat, e: nat | 1 <= n <= spaces :: !EndsBody(rest, n, e)
  }

  lemma {:induction false} ShortestBodyFirst(rest: string, start: nat) returns (e: nat)
    requires start <= |rest|
    ensures var body := ShortestBody(rest, start, start + 1);
            && (body.Some? ==> start < e <= |rest| && EndsBody(rest, start, e) && body.value == rest[start..e]
                               && forall e': nat | e' < e :: !EndsBody(rest, start, e'))
            && (body.None? ==> forall e': nat :: !EndsBody(rest, start, e'))
  {
    e := ShortestBodyIs(rest, start, start + 1);
    assert forall e': nat | e' <= start :: !EndsBody(rest, start, e');
    hide ShortestBody, EndsBody;
  }

  /** The body found is that one: most space first, then the shortest body. */
  lemma {:induction false} BacktrackIs(rest: string, spaces: nat) returns (n: nat, e: nat)
    requires spaces <= |rest|
    ensures var body := Backtrack(rest, spaces);
            && (body.Some? ==> IsFirstBody(rest, spaces, n, e) && body.value == rest[n..e])
            && (body.None? ==> NoBody(rest, spaces))
  {
    n, e := 0, 0;
    if spaces == 0 {
    } else {
      hide EndsBody, ShortestBody;
      e := ShortestBodyFirst(rest, spaces);
      n := spaces;
      if ShortestBody(rest, spaces, spaces + 1).None? {
        n, e := BacktrackIs(rest, spaces - 1);
      }
    }
  }

  lemma {:induction false} LeadingSpace(rest: string, n: nat)
    requires n <= |rest|
    ensures (forall i | 0 <= i < n :: IsSpace(rest[i])) <==> n <= |rest| - |TrimStart(rest)|
  {
    TrimStartIsSuffix(rest);
    var k := |rest| - |TrimStart(rest)|;
    TrimStartStops(rest);
    assert k < |rest| ==> rest[k] == TrimStart(rest)[0];
  }

  lemma {:induction false} TrimStartStops(s: string)
    ensures TrimStart(s) != "" ==> !IsSpace(TrimStart(s)[0])
  {
    if s == "" || !IsSpace(s[0]) {
    } else {
      TrimStartStops(s[1..]);
    }
  }

  /** The hashes of a match are all the line starts with. */
  lemma {:induction false} MatchTakesAllHashes(line: string, h: nat, n: nat, len: nat, k: nat)
    requires IsMatch(line, h, n, len, k)
    ensures h == Hashes(line)
  {
    HashesAre(line);
    HashesStop(line);
    assert IsSpace(line[h]);
  }

  lemma {:induction false} HashesStop(s: string)
    ensures Hashes(s) <= |s| && (Hashes(s) < |s| ==> s[Hashes(s)] != '#')
  {
    if s == "" || s[0] != '#' {
    } else {
      HashesStop(s[1..]);
    }
  }

  /** The line is a match with this body, for some white space after it. */
  ghost predicate HasBody(line: string, h: nat, n: nat, len: nat) {
    exists k: nat :: IsMatch(line, h, n, len, k)
  }

  lemma {:induction false} HasBodyIff(line: string, h: nat, n: nat, len: nat)
    requires h == Hashes(line) && 2 <= h <= 4 && h + n + len <= |line|
    ensures HasBody(line, h, n, len) <==>
            var rest := line[h..];
            1 <= n <= |rest| - |TrimStart(rest)| && len >= 1 && EndsBody(rest, n, n + len)
  {
    var rest := line[h..];
    var tail := rest[n + len..];
    ClosingMeans(tail);
    forall k: nat ensures IsMatch(line, h, n, len, k) <==>
        n >= 1 && len >= 1 && n <= |rest| - |TrimStart(rest)| && SpacesThenHashes(tail, k)
        && forall i | n <= i < n + len :: !IsLineEnd(rest[i])
    {
      MatchInParts(line, h, n, len, k);
    }
    hide IsMatch, SpacesThenHashes, IsSpace, Hashes, TrimStart, IsClosing, IsLineEnd;
    if k: nat :| SpacesThenHashes(tail, k) {
      assert IsMatch(line, h, n, len, k) <==>
          n >= 1 && len >= 1 && n <= |rest| - |TrimStart(rest)| && forall i | n <= i < n + len :: !IsLineEnd(rest[i]);
    }
  }

  lemma {:induction false} MatchInParts(line: string, h: nat, n: nat, len: nat, k: nat)
    requires h == Hashes(line) && 2 <= h <= 4 && h + n + len <= |line|
    ensures var rest := line[h..];
            IsMatch(line, h, n, len, k) <==>
              n >= 1 && len >= 1 && n <= |rest| - |TrimStart(rest)| && SpacesThenHashes(rest[n + len..], k)
              && forall i | n <= i < n + len :: !IsLineEnd(rest[i])
  {
    var rest := line[h..];
    var tail := rest[n + len..];
    HashesAre(line);
    LeadingSpace(rest, n);
    hide IsSpace, TrimStart;
    assert forall i | 0 <= i < |rest| :: rest[i] == line[h + i];
    assert forall i | 0 <= i < |tail| :: tail[i] == line[h + n + len + i];
    assert (forall i | h <= i < h + n :: IsSpace(line[i])) <==> (forall i | 0 <= i < n :: IsSpace(rest[i])) by {
      assert forall i | h <= i < h + n :: line[i] == rest[i - h];
    }
    assert (forall i | h + n <= i < h + n + len :: line[i] as int !in {10, 13, 0x2028, 0x2029})
        <==> (forall i | n <= i < n + len :: !IsLineEnd(rest[i])) by {
      assert forall i | h + n <= i < h + n + len :: line[i] == rest[i - h];
      assert forall c: char :: IsLineEnd(c) <==> c as int in {10, 13, 0x2028, 0x2029};
    }
    assert forall i | h + n + len <= i < |line| :: line[i] == tail[i - (h + n + len)];
  }

  lemma {:induction false} AllBodies(line: string)
    ensures forall h: nat, n: nat, len: nat | HasBody(line, h, n, len) :: h == Hashes(line) && 2 <= h <= 4
    ensures var h := Hashes(line);
            h <= |line| && (2 <= h <= 4 ==>
              var rest := line[h..];
              forall n: nat, len: nat :: HasBody(line, h, n, len) <==>
                1 <= n <= |rest| - |TrimStart(rest)| && len >= 1 && EndsBody(rest, n, n + len))
  {
    var h := Hashes(line);
    HashesAre(line);
    forall h': nat, n: nat, len: nat | HasBody(line, h', n, len)
      ensures h' == h && 2 <= h <= 4 && h + n + len <= |line|
    {
      var k: nat :| IsMatch(line, h', n, len, k);
      MatchTakesAllHashes(line, h', n, len, k);
    }
    if 2 <= h <= 4 {
      var rest := line[h..];
      forall n: nat, len: nat ensures HasBody(line, h, n, len) <==>
          1 <= n <= |rest| - |TrimStart(rest)| && len >= 1 && EndsBody(rest, n, n + len)
      {
        if h + n + len <= |line| {
          HasBodyIff(line, h, n, len);
        }
      }
    }
  }

  lemma {:induction false} HeadingIsBacktrack(line: string)
    ensures var h := Hashes(line);
            h <= |line| && (if 2 <= h <= 4 then HeadingBody(line) == Backtrack(line[h..], LeadingSpaces(line[h..]))
                            else HeadingBody(line).None?)
  {
    HashesAre(line);
  }

  function LeadingSpaces(s: string): nat {
    TrimStartShrinks(s);
    |s| - |TrimStart(s)|
  }

  lemma {:induction false} FirstBodyIsFirst(line: string, n: nat, e: nat, h': nat, n': nat, len': nat)
    requires var h := Hashes(line); 2 <= h <= 4 && h <= |line| && IsFirstBody(line[h..], LeadingSpaces(line[h..]), n, e)
    requires HasBody(line, h', n', len')
    ensures h' == Hashes(line) && (n' < n || (n' == n && e - n <= len'))
  {
    AllBodies(line);
    hide HasBody, EndsBody, Hashes, TrimStart;
    var rest := line[Hashes(line)..];
    assert EndsBody(rest, n', n' + len') && 1 <= n' <= LeadingSpaces(rest);
  }

  lemma {:induction false} FirstBodyMatches(line: string, n: nat, e: nat)
    requires var h := Hashes(line); 2 <= h <= 4 && h <= |line| && IsFirstBody(line[h..], LeadingSpaces(line[h..]), n, e)
    ensures var h := Hashes(line);
            HasBody(line, h, n, e - n) && h + e <= |line| && line[h..][n..e] == line[h + n..h + e]
  {
    AllBodies(line);
    hide HasBody, EndsBody, Hashes, TrimStart;
    assert n + (e - n) == e;
  }

  lemma {:induction false} NoBodyNoMatch(line: string, h': nat, n': nat, len': nat)
    requires var h := Hashes(line);
             h <= |line| && (2 <= h <= 4 ==> NoBody(line[h..], LeadingSpaces(line[h..])))
    ensures !HasBody(line, h', n', len')
  {
    AllBodies(line);
    hide HasBody, EndsBody, Hashes, TrimStart;
    var rest := line[Hashes(line)..];
    if h' == Hashes(line) && 2 <= h' <= 4 {
      assert !EndsBody(rest, n', n' + len') || !(1 <= n' <= LeadingSpaces(rest));
    }
  }

  /**
   A line is a heading iff the pattern matches it in some way; its body is then that of the match
   that comes first in the order of backtracking: the most space before it, then the shortest body.
   */
  lemma {:induction false} HeadingPattern(line: string) returns (h: nat, n: nat, len: nat)
    ensures HeadingBody(line).Some? ==>
              && HasBody(line, h, n, len) && h + n + len <= |line| && HeadingBody(line).value == line[h + n..h + n + len]
              && forall h': nat, n': nat, len': nat | HasBody(line, h', n', len') ::
                   h' == h && (n' < n || (n' == n && len <= len'))
    ensures HeadingBody(line).None? ==> forall h': nat, n': nat, len': nat :: !HasBody(line, h', n', len')
  {
    h, n, len := Hashes(line), 0, 0;
    HeadingIsBacktrack(line);
    hide HeadingBody, HasBody, Backtrack, Hashes, LeadingSpaces, NoBody;
    var e := 0;
    if 2 <= h <= 4 {
      n, e := BacktrackIs(line[h..], LeadingSpaces(line[h..]));
    }
    if HeadingBody(line).Some? {
      FirstBodyMatches(line, n, e);
      len := e - n;
      forall h': nat, n': nat, len': nat | HasBody(line, h', n', len')
        ensures h' == h && (n' < n || (n' == n && len <= len'))
      {
        FirstBodyIsFirst(line, n, e, h', n', len');
      }
    } else {
      forall h': nat, n': nat, len': nat ensures !HasBody(line, h', n', len') {
        NoBodyNoMatch(line, h', n', len');
      }
    }
  }

  /** What a listed title leaves out: asterisks, underscores and backticks. */
  lemma {:induction false} EmphasisIs(a: string, c: char, b: string)
    ensures DropEmphasis(a + [c] + b) == DropEmphasis(a) + (if c in {'*', '_', '`'} then "" else [c]) + DropEmphasis(b)
  {
    if a == "" {
      assert a + [c] + b == [c] + b && ([c] + b)[1..] == b;
    } else {
      assert (a + [c] + b)[1..] == a[1..] + [c] + b;
      EmphasisIs(a[1..], c, b);
    }
  }

  lemma {:induction false} DropEmphasisIsDropMarkers(s: string)
    ensures DropMarkers(DropEmphasis(s)) == DropMarkers(s)
  {
    if s == "" {
    } else {
      DropEmphasisIsDropMarkers(s[1..]);
      if s[0] in "*_`" {
        assert DropEmphasis(s) == DropEmphasis(s[1..]);
      } else {
        assert DropEmphasis(s)[1..] == DropEmphasis(s[1..]) && DropEmphasis(s)[0] == s[0];
      }
    }
  }

  /**
   The anchor of an entry is the slug of the title it shows, and also the slug of the whole
   line, hashes included; so the choices the lazy pattern makes never reach an anchor.
   */
  lemma {:induction false} EntryAnchors(ext: char -> string, line: string)
    ensures forall e | e in EntriesOf(ext, line) ::
              e.text != "" && e.slug == Slugify(ext, e.text) && e.slug == Slugify(ext, line)
  {
    if EntriesOf(ext, line) != [] {
      var body := HeadingBody(line).value;
      var head, tail := HeadingLine(line);
      ScanAround(ext, head, body, tail);
      SlugIsOnePass(ext, line);
      SlugIsOnePass(ext, body);
      var plain := DropEmphasis(body);
      DropEmphasisIsDropMarkers(body);
      MarkersDoNotMatter(ext, plain, body);
      ScanTrim(ext, plain);
      SlugIsOnePass(ext, plain);
      SlugIsOnePass(ext, Trim(plain));
    }
  }

  lemma {:induction false} ContentsAnchors(ext: char -> string, lines: seq<string>)
    ensures forall e | e in Contents(ext, lines) :: e.text != "" && e.slug == Slugify(ext, e.text)
  {
    if lines == [] {
    } else {
      ContentsAnchors(ext, lines[..|lines| - 1]);
      EntryAnchors(ext, lines[|lines| - 1]);
      hide EntriesOf, Slugify;
    }
  }

  /** parseHeadings: every entry links to the slug of its own title. */
  method ParseHeadings(ext: char -> string, markdown: string) returns (out: seq<Entry>)
    ensures out == Contents(ext, SplitOn(markdown, '\n'))
    ensures forall e | e in out :: e.text != "" && e.slug == Slugify(ext, e.text)
  {
    out := [];
    var lines := SplitOn(markdown, '\n');
    for i := 0 to |lines|
      invariant out == Contents(ext, lines[..i])
    {
      assert lines[..i + 1][..i] == lines[..i];
      var body := HeadingBody(lines[i]);
      if body.None? {
        continue;
      }
      var text := Trim(DropEmphasis(body.value));
      if text != "" {
        out := out + [Entry(text, Slugify(ext, body.value))];
      }
    }
    assert lines[..|lines|] == lines;
    ContentsAnchors(ext, lines);
  }

  /**
   A rendered heading whose plain text agrees with a listed title up to markers gets the very
   id the table of contents links to.
   */
  lemma {:induction false} RenderedHeadingIsLinked(ext: char -> string, line: string, rendered: string)
    requires HeadingBody(line).Some? && DropMarkers(rendered) == DropMarkers(HeadingBody(line).value)
    ensures forall e | e in EntriesOf(ext, line) :: e.slug == Slugify(ext, rendered)
  {
    MarkersDoNotMatter(ext, rendered, HeadingBody(line).value);
  }
}
